/**
  The scan report: what buildReport makes of an inventory, its scan and its reconstruction, and the clauses of the
  report's own validation that depend on them: names and sizes of the inputs, the canonical order of inputs, archives,
  findings and tools, and the decision.
 */
module ScannerReport {
  import opened Bytes
  import opened ByteOrder
  import opened LogicalNames
  import opened ScanCoverage
  import Archives
  import Reconstruction
  import ToolEvidence

  const MAXIMUM_RECORDS: nat := 1000000

  /** The code an archive error is reported under. */
  function CodeName(code: Archives.Code): string {
    match code
    case ArchiveInvalid => "ARCHIVE_INVALID"
    case ArchiveEncrypted => "ARCHIVE_ENCRYPTED"
    case ArchiveLinkRejected => "ARCHIVE_LINK_REJECTED"
    case ArchiveSpecialFileRejected => "ARCHIVE_SPECIAL_FILE_REJECTED"
    case ArchiveDuplicatePath => "ARCHIVE_DUPLICATE_PATH"
    case ArchiveLimitReached => "ARCHIVE_LIMIT_REACHED"
    case ArchivePathUnsafe => "ARCHIVE_PATH_UNSAFE"
    case ArchiveExtractionFailed => "ARCHIVE_EXTRACTION_FAILED"
    case ScanLimitReached => "SCAN_LIMIT_REACHED"
    case _ => "SCAN_ERROR"
  }

  function ReasonName(reason: Reconstruction.Reason): string {
    match reason
    case TypeMismatch => "TYPE_MISMATCH"
    case ActiveContentBlocked => "ACTIVE_CONTENT_BLOCKED"
    case UnsupportedType => "SANITIZER_UNSUPPORTED_TYPE"
    case FormatUnsupported => "ARCHIVE_FORMAT_UNSUPPORTED"
    case Rejected(code) => CodeName(code)
    case SelectionRequired => "PROMOTION_SELECTION_REQUIRED"
    case MemberPathUnsafe => "ARCHIVE_PATH_UNSAFE"
    case NotClean => "SCAN_ERROR"
  }

  /** The scanner's findings about archive members, by location. */
  type Verdicts = Reconstruction.Location -> Finding

  /** A finding as it is reported: a member's verdict under the member's path, anything else as a blocking finding. */
  function Reported(f: Reconstruction.Finding, verdicts: Verdicts): Finding {
    if f.reason.NotClean? then verdicts(f.at).(path := f.path)
    else Finding(f.path, ReasonName(f.reason), "", Blocking)
  }

  function AllReported(own: seq<Reconstruction.Finding>, verdicts: Verdicts): (r: seq<Finding>)
    ensures |r| == |own|
  {
    seq(|own|, i requires 0 <= i < |own| => Reported(own[i], verdicts))
  }

  // ----- keys

  function FindingKey(f: Finding): string {
    f.path + "\0" + f.code + "\0" + f.identifier
  }

  /** Without NULs in path and code the joined key is path, code and identifier. */
  lemma FindingKeySeparates(f: Finding, g: Finding)
    requires '\0' !in f.path && '\0' !in g.path && '\0' !in f.code && '\0' !in g.code
    ensures FindingKey(f) == FindingKey(g) <==> f.path == g.path && f.code == g.code && f.identifier == g.identifier
  {
    var a := ToolEvidence.Tool(f.path, f.code + "\0" + f.identifier);
    var b := ToolEvidence.Tool(g.path, g.code + "\0" + g.identifier);
    assert FindingKey(f) == ToolEvidence.SortKey(a) && FindingKey(g) == ToolEvidence.SortKey(b);
    if FindingKey(f) == FindingKey(g) {
      ToolEvidence.KeyDetermines(a, b);
      ToolEvidence.KeyDetermines(ToolEvidence.Tool(f.code, f.identifier), ToolEvidence.Tool(g.code, g.identifier));
    }
  }

  /** Digest and depth as one key; no archive is deeper than ten levels. */
  function ArchiveKey(a: Reconstruction.ArchiveReport): string {
    a.sha + "\0" + [(if a.depth < 256 then a.depth else 255) as char]
  }

  lemma ArchiveKeySeparates(a: Reconstruction.ArchiveReport, b: Reconstruction.ArchiveReport)
    requires a.depth <= 10 && b.depth <= 10 && '\0' !in a.sha && '\0' !in b.sha
    ensures ArchiveKey(a) == ArchiveKey(b) <==> a.sha == b.sha && a.depth == b.depth
  {
    var x, y := ToolEvidence.Tool(a.sha, [a.depth as char]), ToolEvidence.Tool(b.sha, [b.depth as char]);
    assert ArchiveKey(a) == ToolEvidence.SortKey(x) && ArchiveKey(b) == ToolEvidence.SortKey(y);
    if ArchiveKey(a) == ArchiveKey(b) {
      ToolEvidence.KeyDetermines(x, y);
      assert [a.depth as char][0] == [b.depth as char][0];
    }
  }

  /** The key orders archives by digest and then by depth, as the validation does. */
  lemma ArchiveKeyOrders(a: Reconstruction.ArchiveReport, b: Reconstruction.ArchiveReport)
    requires a.depth <= 10 && b.depth <= 10 && '\0' !in a.sha && '\0' !in b.sha
    requires Less(a.sha, b.sha) || (a.sha == b.sha && a.depth < b.depth)
    ensures Less(ArchiveKey(a), ArchiveKey(b))
  {
    var x, y := ToolEvidence.Tool(a.sha, [a.depth as char]), ToolEvidence.Tool(b.sha, [b.depth as char]);
    if Less(a.sha, b.sha) {
      ToolEvidence.KeyOrdersByName(x, y);
    } else {
      LessAfterPrefix(a.sha + "\0", x.version, y.version);
    }
  }

  // ----- the report

  predicate Blocked(findings: seq<Finding>) {
    exists i :: 0 <= i < |findings| && findings[i].severity == Blocking
  }

  datatype Draft = Draft(approved: bool, findings: seq<Finding>, outputs: seq<Reconstruction.Output>)

  /** Sorted findings; rejected and without outputs when one of them blocks, and otherwise approved. */
  function DraftReport(findings: seq<Finding>, outputs: seq<Reconstruction.Output>): Draft {
    var sorted := SortedByKey(findings, FindingKey);
    if Blocked(findings) then Draft(false, sorted, []) else Draft(true, sorted, outputs)
  }

  /** What a report is built from. */
  datatype Evidence = Evidence(
    inventory: seq<Entry>, scan: seq<Finding>, own: seq<Reconstruction.Finding>, verdicts: Verdicts,
    archives: seq<Reconstruction.ArchiveReport>, outputs: seq<Reconstruction.Output>, tools: seq<ToolEvidence.Tool>)

  function FindingsOf(e: Evidence): seq<Finding> {
    e.scan + AllReported(e.own, e.verdicts)
  }

  function DraftOf(e: Evidence): Draft {
    DraftReport(FindingsOf(e), e.outputs)
  }

  predicate ValidEntry(e: Entry) {
    LogicalName(e.path) && e.size != 0
  }

  predicate ValidInput(i: Input) {
    ValidEntry(i.entry)
  }

  predicate NamedWell(f: Finding) {
    f.path == "" || LogicalName(f.path)
  }

  // the clauses, on the sorted lists of the report

  predicate InputsHold(inputs: seq<Input>) {
    && 0 < |inputs| <= MAXIMUM_RECORDS && StrictlySorted(inputs, PathOfInput)
    && forall i :: 0 <= i < |inputs| ==> ValidInput(inputs[i])
  }

  predicate ArchivesHold(archives: seq<Reconstruction.ArchiveReport>) {
    && |archives| <= MAXIMUM_RECORDS && StrictlySorted(archives, ArchiveKey)
    && forall i :: 0 <= i < |archives| ==> Reconstruction.Complete(archives[i])
  }

  predicate FindingsHold(findings: seq<Finding>) {
    && |findings| <= MAXIMUM_RECORDS && StrictlySorted(findings, FindingKey)
    && forall i :: 0 <= i < |findings| ==> NamedWell(findings[i])
  }

  predicate ToolsHold(tools: seq<ToolEvidence.Tool>) {
    0 < |tools| <= ToolEvidence.MAXIMUM_TOOLS && StrictlySorted(tools, ToolEvidence.NameOf)
  }

  /** The approved and rejected clauses. */
  predicate DecisionHolds(draft: Draft, safe: bool) {
    if draft.approved then safe && !Blocked(draft.findings) && draft.outputs != []
    else Blocked(draft.findings) && draft.outputs == []
  }

  predicate ReportHolds(e: Evidence, safe: bool) {
    && InputsHold(SortedByKey(InputsOf(e.inventory, e.scan), PathOfInput))
    && ArchivesHold(SortedByKey(e.archives, ArchiveKey))
    && FindingsHold(DraftOf(e).findings)
    && ToolsHold(ToolEvidence.CanonicalList(e.tools))
    && DecisionHolds(DraftOf(e), safe)
  }

  // ----- when a report is valid

  lemma SortedMembers<T(!new)>(s: seq<T>, key: T -> string)
    ensures |SortedByKey(s, key)| == |s| && forall t :: t in SortedByKey(s, key) <==> t in s
  {
    var sorted := SortedByKey(s, key);
    SortedSorts(s, key);
    assert |multiset(s)| == |multiset(sorted)|;
    forall t ensures t in sorted <==> t in s {
      assert t in s <==> t in multiset(s);
      assert t in sorted <==> t in multiset(sorted);
    }
  }

  lemma BlockedByAny(findings: seq<Finding>)
    ensures Blocked(findings) <==> exists f :: f in findings && f.severity == Blocking
  {
    if Blocked(findings) {
      var i :| 0 <= i < |findings| && findings[i].severity == Blocking;
      assert findings[i] in findings;
    }
  }

  lemma SortingKeepsBlocked(findings: seq<Finding>)
    ensures Blocked(SortedByKey(findings, FindingKey)) <==> Blocked(findings)
  {
    SortedMembers(findings, FindingKey);
    BlockedByAny(findings);
    BlockedByAny(SortedByKey(findings, FindingKey));
  }

  /** The inventory can be reported: not empty, no file twice, no empty file, no name the report refuses. */
  predicate Reportable(inventory: seq<Entry>) {
    && 0 < |inventory| <= MAXIMUM_RECORDS && DistinctEntries(inventory)
    && forall i :: 0 <= i < |inventory| ==> ValidEntry(inventory[i])
  }

  lemma InputsHoldExactly(inventory: seq<Entry>, scan: seq<Finding>)
    ensures InputsHold(SortedByKey(InputsOf(inventory, scan), PathOfInput)) <==> Reportable(inventory)
  {
    var inputs := InputsOf(inventory, scan);
    var sorted := SortedByKey(inputs, PathOfInput);
    SortedMembers(inputs, PathOfInput);
    InputsAreCanonical(inventory, scan);
    if forall i :: 0 <= i < |sorted| ==> ValidInput(sorted[i]) {
      forall i | 0 <= i < |inventory| ensures ValidEntry(inventory[i]) {
        assert inputs[i] in sorted;
      }
    }
    if forall i :: 0 <= i < |inventory| ==> ValidEntry(inventory[i]) {
      forall i | 0 <= i < |sorted| ensures ValidInput(sorted[i]) {
        assert sorted[i] in inputs;
      }
    }
  }

  ghost predicate ArchivesFit(archives: seq<Reconstruction.ArchiveReport>) {
    && |archives| <= MAXIMUM_RECORDS && DistinctKeys(archives, ArchiveKey)
    && forall a :: a in archives ==> Reconstruction.Complete(a)
  }

  lemma ArchivesHoldExactly(archives: seq<Reconstruction.ArchiveReport>)
    ensures ArchivesHold(SortedByKey(archives, ArchiveKey)) <==> ArchivesFit(archives)
  {
    var sorted := SortedByKey(archives, ArchiveKey);
    SortedMembers(archives, ArchiveKey);
    SortedStrictlyExactly(archives, ArchiveKey);
    assert (forall i :: 0 <= i < |sorted| ==> Reconstruction.Complete(sorted[i])) <==>
           (forall a :: a in sorted ==> Reconstruction.Complete(a));
  }

  /** The findings can be reported: no two share path, code and identifier, and every path is one the report accepts. */
  ghost predicate FindingsFit(findings: seq<Finding>) {
    && |findings| <= MAXIMUM_RECORDS && DistinctKeys(findings, FindingKey)
    && forall f :: f in findings ==> NamedWell(f)
  }

  lemma FindingsHoldExactly(findings: seq<Finding>)
    ensures FindingsHold(SortedByKey(findings, FindingKey)) <==> FindingsFit(findings)
  {
    var sorted := SortedByKey(findings, FindingKey);
    SortedMembers(findings, FindingKey);
    SortedStrictlyExactly(findings, FindingKey);
    assert (forall i :: 0 <= i < |sorted| ==> NamedWell(sorted[i])) <==> (forall f :: f in sorted ==> NamedWell(f));
  }

  /** The tools can be reported: at least one, at most 256 different ones, no tool in two versions. */
  ghost predicate ToolsFit(tools: seq<ToolEvidence.Tool>) {
    tools != [] && |set t | t in tools| <= ToolEvidence.MAXIMUM_TOOLS && ToolEvidence.OneVersion(tools)
  }

  lemma ToolsHoldExactly(tools: seq<ToolEvidence.Tool>)
    requires ToolEvidence.AllValid(tools)
    ensures ToolsHold(ToolEvidence.CanonicalList(tools)) <==> ToolsFit(tools)
  {
    forall t | t in tools ensures ToolEvidence.NoNul(t.name) {
      ToolEvidence.ValidHasNoNul(t);
    }
    ToolEvidence.NamesStrictExactly(tools);
    ToolEvidence.ListCount(tools);
    assert tools != [] ==> tools[0] in (set t | t in tools);
    assert tools == [] ==> (set t | t in tools) == {};
  }

  /**
    A report of this evidence passes exactly when inventory, archives, findings and tools can be reported, and either
    something blocks or there is something to promote under the safe policy.
   */
  lemma ReportHoldsExactly(e: Evidence, safe: bool)
    requires ToolEvidence.AllValid(e.tools)
    ensures ReportHolds(e, safe) <==>
            && Reportable(e.inventory) && ArchivesFit(e.archives) && FindingsFit(FindingsOf(e)) && ToolsFit(e.tools)
            && (Blocked(FindingsOf(e)) || (safe && e.outputs != []))
  {
    InputsHoldExactly(e.inventory, e.scan);
    ArchivesHoldExactly(e.archives);
    FindingsHoldExactly(FindingsOf(e));
    ToolsHoldExactly(e.tools);
    SortingKeepsBlocked(FindingsOf(e));
  }

  /** One empty file, or one name with a backslash, and there is no report of the whole inventory. */
  lemma EmptyFileLeavesNoReport(e: Evidence, safe: bool, i: nat)
    requires i < |e.inventory| && (e.inventory[i].size == 0 || '\\' in e.inventory[i].path)
    ensures !ReportHolds(e, safe)
  {
    InputsHoldExactly(e.inventory, e.scan);
    assert !ValidEntry(e.inventory[i]);
  }

  // ----- reports of a reconstruction

  /** The scanner blocks every archive member that it does not find clean. */
  predicate MembersBlock(own: seq<Reconstruction.Finding>, verdicts: Verdicts) {
    forall i :: 0 <= i < |own| && own[i].reason.NotClean? ==> verdicts(own[i].at).severity == Blocking
  }

  lemma BlockedTogether(scan: seq<Finding>, more: seq<Finding>)
    ensures Blocked(scan + more) <==> Blocked(scan) || Blocked(more)
  {
    BlockedByAny(scan);
    BlockedByAny(more);
    BlockedByAny(scan + more);
  }

  lemma OwnFindingsBlock(own: seq<Reconstruction.Finding>, verdicts: Verdicts)
    requires MembersBlock(own, verdicts)
    ensures Blocked(AllReported(own, verdicts)) <==> own != []
  {
    if own != [] {
      assert AllReported(own, verdicts)[0].severity == Blocking;
    }
  }

  /** Every entry, at any depth, has a path the inventory accepts and no backslash in it. */
  ghost predicate PlainNames(w: Reconstruction.World) {
    forall at :: PlainPath(w.entry(at).name) && '\\' !in w.entry(at).name
  }

  lemma {:induction false} PathOfIsPlain(w: Reconstruction.World, at: Reconstruction.Location)
    requires PlainNames(w) && at != []
    ensures PlainPath(Reconstruction.PathOf(w, at)) && '\\' !in Reconstruction.PathOf(w, at)
    decreases |at|
  {
    if |at| == 1 {
    } else {
      PathOfIsPlain(w, at[..|at| - 1]);
      PlainPathJoined(Reconstruction.PathOf(w, at[..|at| - 1]), w.entry(at).name);
    }
  }

  /** What Reconstruct promises of its records, for an inventory whose own paths are within the bound. */
  ghost predicate FromWorld(w: Reconstruction.World, locations: set<Reconstruction.Location>, e: Evidence) {
    && Reconstruction.AllPlaced(w, locations, e.own) && PlainNames(w)
    && (forall i: nat :: |w.entry([i]).name| <= MAXIMUM_NAME)
    && Reconstruction.Unrepeated(e.archives) && Reconstruction.AllAbout(w, e.archives)
    && (forall i :: 0 <= i < |e.archives| ==> Reconstruction.Complete(e.archives[i]))
    && (forall a :: a in e.archives ==> '\0' !in a.sha)
  }

  lemma PlacedIsNamed(w: Reconstruction.World, f: Reconstruction.Finding, verdicts: Verdicts)
    requires PlainNames(w) && Reconstruction.WellPlaced(w, f) && forall i: nat :: |w.entry([i]).name| <= MAXIMUM_NAME
    ensures NamedWell(Reported(f, verdicts))
  {
    if f.at != [] {
      var at := if Reconstruction.TooLong(w, f.at) then f.at[..|f.at| - 1] else f.at;
      PathOfIsPlain(w, at);
      assert |at| == 1 ==> at == [at[0]];
      PlainPathNames(Reconstruction.PathOf(w, at));
    }
  }

  lemma AllNamed(w: Reconstruction.World, locations: set<Reconstruction.Location>, e: Evidence)
    requires FromWorld(w, locations, e) && forall f :: f in e.scan ==> NamedWell(f)
    ensures forall f :: f in FindingsOf(e) ==> NamedWell(f)
  {
    var reported := AllReported(e.own, e.verdicts);
    forall f | f in FindingsOf(e) ensures NamedWell(f) {
      if f !in e.scan {
        assert f in reported;
        var i :| 0 <= i < |reported| && reported[i] == f;
        assert e.own[i] in e.own;
        PlacedIsNamed(w, e.own[i], e.verdicts);
      }
    }
  }

  /** If a digest determines its content, the archives of a reconstruction can always be reported. */
  lemma ArchivesAlwaysFit(w: Reconstruction.World, locations: set<Reconstruction.Location>, e: Evidence)
    requires FromWorld(w, locations, e) && Reconstruction.ByDigest(w) && |e.archives| <= MAXIMUM_RECORDS
    ensures ArchivesFit(e.archives)
  {
    var archives := e.archives;
    forall i, j | 0 <= i < j < |archives| ensures ArchiveKey(archives[i]) != ArchiveKey(archives[j]) {
      Reconstruction.ToldApartByDigest(w, archives, i, j);
      assert archives[i] in archives && archives[j] in archives;
      ArchiveKeySeparates(archives[i], archives[j]);
    }
    forall a, b | a in archives && b in archives && ArchiveKey(a) == ArchiveKey(b) ensures a == b {
      var i :| 0 <= i < |archives| && archives[i] == a;
      var j :| 0 <= j < |archives| && archives[j] == b;
      assert i == j;
    }
  }

  /**
    The report of a successful reconstruction.  If the scanner blocks the members it does not find clean, a digest
    determines its content and names are plain, it is valid exactly when the inventory and the tools can be reported and
    no two findings share path, code and identifier.  It is approved with exactly one output when nothing was found, and
    otherwise rejected with none.
   */
  lemma ReportFollows(w: Reconstruction.World, locations: set<Reconstruction.Location>, done: Reconstruction.Result,
                      e: Evidence)
    requires done.Done? && e.own == done.findings && e.archives == done.archives && e.outputs == done.outputs
    requires MembersBlock(e.own, e.verdicts) && ToolEvidence.AllValid(e.tools)
    requires FromWorld(w, locations, e) && Reconstruction.ByDigest(w) && |e.archives| <= MAXIMUM_RECORDS
    requires forall f :: f in e.scan ==> NamedWell(f)
    ensures ReportHolds(e, true) <==>
            && Reportable(e.inventory) && ToolsFit(e.tools)
            && |FindingsOf(e)| <= MAXIMUM_RECORDS && DistinctKeys(FindingsOf(e), FindingKey)
    ensures DraftOf(e).approved <==> !Blocked(e.scan) && done.findings == []
    ensures |DraftOf(e).outputs| == if DraftOf(e).approved then 1 else 0
  {
    OwnFindingsBlock(e.own, e.verdicts);
    BlockedTogether(e.scan, AllReported(e.own, e.verdicts));
    ReportHoldsExactly(e, true);
    AllNamed(w, locations, e);
    ArchivesAlwaysFit(w, locations, e);
  }

  /**
    Without the assumption on the scanner the decision itself can be missing, exactly when nothing was produced and no
    finding blocks: the scan is clean and all findings are member verdicts that do not block.
   */
  lemma UndecidedExactly(done: Reconstruction.Result, e: Evidence)
    requires done.Done? && e.own == done.findings && e.outputs == done.outputs
    ensures !DecisionHolds(DraftOf(e), true) <==>
            && !Blocked(e.scan) && done.outputs == []
            && forall i :: 0 <= i < |done.findings| ==>
                 done.findings[i].reason.NotClean? && e.verdicts(done.findings[i].at).severity != Blocking
  {
    var own := AllReported(done.findings, e.verdicts);
    BlockedTogether(e.scan, own);
    SortingKeepsBlocked(e.scan + own);
    assert forall i :: 0 <= i < |own| ==> own[i] == Reported(done.findings[i], e.verdicts);
  }

  /** Two findings in the same words leave no valid report, whatever else was found. */
  lemma RepeatedIsRefused(e: Evidence, safe: bool)
    requires Reconstruction.Repeated(e.own)
    ensures !ReportHolds(e, safe)
  {
    var all := FindingsOf(e);
    var n := |e.scan|;
    var i, j :| 0 <= i < j < |e.own| && Reconstruction.Alike(e.own[i], e.own[j]);
    assert all[n + i] == Reported(e.own[i], e.verdicts) == Reported(e.own[j], e.verdicts) == all[n + j];
    assert !Distinct(all);
    FindingsHoldExactly(all);
  }

  /** An archive with two members under too long a path: its reconstruction succeeds and leaves no valid report. */
  method LongNamesLeaveNoReport(inventory: seq<Entry>, scan: seq<Finding>, verdicts: Verdicts,
                                tools: seq<ToolEvidence.Tool>, safe: bool)
    returns (r: Reconstruction.Result)
    ensures r.Done?
    ensures !ReportHolds(Evidence(inventory, scan, r.findings, verdicts, r.archives, r.outputs, tools), safe)
  {
    r := Reconstruction.TwoLongNames();
    RepeatedIsRefused(Evidence(inventory, scan, r.findings, verdicts, r.archives, r.outputs, tools), safe);
  }
}
