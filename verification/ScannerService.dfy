/**
  The scanner guest's RPC phases: isolation first, then inventory, malware scan and
  reconstruction under one session and one policy, ending in a signed report.
 */
module ScannerService {
  import opened Bytes
  import opened ByteOrder
  import opened ScanCoverage
  import opened ScannerReport
  import Archives
  import Reconstruction
  import ToolEvidence

  datatype Phase =
    | Boot | DefinitionsVerified | OfflineVerified | InventoryComplete | ScanComplete | ReportComplete | Closed

  const OPEN_PHASES :=
    {Boot, DefinitionsVerified, OfflineVerified, InventoryComplete, ScanComplete, ReportComplete}

  function Rank(phase: Phase): nat {
    match phase
    case Boot => 0
    case DefinitionsVerified => 1
    case OfflineVerified => 2
    case InventoryComplete => 3
    case ScanComplete => 4
    case ReportComplete => 5
    case Closed => 6
  }

  datatype Mode = Safe | Quarantine
  datatype Policy = Policy(name: string, mode: Mode, bounded: bool, maxFiles: nat, maxBytes: nat)

  /** A valid policy is named after its mode and has supported limits. */
  predicate ValidPolicy(p: Policy) {
    p.bounded && p.name == if p.mode.Safe? then "safe" else "quarantine"
  }

  datatype Context = Context(wellFormed: bool, session: string)
  datatype Request = Request(context: Option<Context>, policy: string)
  datatype Report = Report(session: string, policy: string, draft: Draft)

  datatype Service = Service(phase: Phase, closed: bool, session: string, policy: string, inventory: seq<Entry>,
                             summary: Summary, report: Option<Report>)

  const INITIAL: Service := Service(Boot, false, "", "", [], Summary(false, 0, []), None)

  /**
    What the adapter returns, the scanner's findings about archive members, the evidence of the tools that were used,
    and whether the time ran out meanwhile.
   */
  datatype Rebuilding = Rebuilding(outcome: Reconstruction.Result, verdicts: Verdicts, tools: seq<ToolEvidence.Tool>,
                                   expired: bool)

  /** Whether times, identities and the other records that no content decides are valid, and whether signing works. */
  datatype Signing = Signing(sound: bool, signs: bool)

  /** Whether the stored report still authenticates, the output is within the export bound, and its content is sent. */
  datatype Sending = Sending(authentic: bool, fits: bool, sent: bool)

  /** An RPC with what its adapters answer; `started` and `delivered` are its first and last stream messages. */
  datatype Call =
    | UpdateDefinitions(req: Request, works: bool)
    | GetDefinitionsStatus(req: Request, works: bool)
    | VerifyOffline(req: Request, works: bool)
    | TakeInventory(req: Request, started: bool, listed: Option<seq<Entry>>, total: nat, delivered: bool)
    | Scan(req: Request, started: bool, scanned: Option<Summary>, delivered: bool)
    | Rebuild(req: Request, started: bool, rebuilt: Rebuilding, signing: Signing, delivered: bool)
    | GetScanReport(req: Request)
    | ExportApproved(req: Request, output: nat, sending: Sending)
    | Close(cleaned: bool)

  /** The installed policies and the configured tools. */
  datatype Setup = Setup(policies: string -> Option<Policy>, tools: seq<ToolEvidence.Tool>)

  /** bindContext: the first well-formed request fixes the session. */
  function Bind(s: Service, req: Request): (Service, bool) {
    if req.context.None? || !req.context.value.wellFormed || req.context.value.session == "" then (s, false)
    else if s.session == "" then (s.(session := req.context.value.session), true)
    else (s, s.session == req.context.value.session)
  }

  function PlainGate(s: Service, req: Request, phases: set<Phase>): (Service, bool) {
    var (b, ok) := Bind(s, req);
    (b, ok && req.policy == "" && !s.closed && s.phase in phases)
  }

  function PolicyGate(s: Service, req: Request, phase: Phase, setup: Setup): (Service, Option<Policy>) {
    var (b, ok) := Bind(s, req);
    var p := setup.policies(req.policy);
    if ok && !s.closed && s.phase == phase && p.Some? && ValidPolicy(p.value) && p.value.name == req.policy
       && (s.policy == "" || s.policy == p.value.name)
    then (b, p) else (b, None)
  }

  predicate InputsComplete(s: Service) {
    forall i :: 0 <= i < |s.inventory| ==> Verdict(s.summary.findings, s.inventory[i].path) != ""
  }

  const NOTHING: Reconstruction.Outcome := Reconstruction.Done([], [], [])

  /** What goes into the report: a blocked scan is not reconstructed at all. */
  function Reconstructed(s: Service, r: Rebuilding): Reconstruction.Outcome {
    if Blocked(s.summary.findings) then NOTHING
    else if r.expired then Reconstruction.Failed(Archives.Cancelled)
    else r.outcome
  }

  /** Everything the report is built from. */
  function EvidenceOf(s: Service, done: Reconstruction.Outcome, r: Rebuilding, setup: Setup): Evidence
    requires done.Done?
  {
    var used := if Blocked(s.summary.findings) then [] else r.tools;
    Evidence(s.inventory, s.summary.findings, done.findings, r.verdicts, done.archives, done.outputs,
             setup.tools + used)
  }

  /** The signed report of a reconstruction, if every step up to the signature succeeds. */
  function SignedReport(s: Service, r: Rebuilding, signing: Signing, setup: Setup): Option<Report> {
    var done := Reconstructed(s, r);
    if done.Failed? || !InputsComplete(s) || !signing.sound || !signing.signs then None else
    var e := EvidenceOf(s, done, r, setup);
    if ReportHolds(e, s.policy == "safe") then Some(Report(s.session, s.policy, DraftOf(e))) else None
  }

  predicate Lists(outputs: seq<Reconstruction.Output>, id: nat) {
    exists i :: 0 <= i < |outputs| && outputs[i].id == id
  }

  /** An approved report lists the output. */
  predicate Promotes(report: Option<Report>, id: nat) {
    report.Some? && report.value.draft.approved && Lists(report.value.draft.outputs, id)
  }

  function RebuildStep(s: Service, req: Request, started: bool, rebuilt: Rebuilding, signing: Signing, delivered: bool,
                       setup: Setup): (Service, bool)
  {
    var (b, p) := PolicyGate(s, req, ScanComplete, setup);
    if p.None? || !p.value.mode.Safe? || !started then (b, false) else
    var report := SignedReport(b, rebuilt, signing, setup);
    if report.None? then (b, false) else (b.(report := report, phase := ReportComplete), delivered)
  }

  function Step(s: Service, call: Call, setup: Setup): (Service, bool) {
    match call
    case UpdateDefinitions(req, works) =>
      var (b, ok) := PlainGate(s, req, {Boot});
      if ok && works then (b.(phase := DefinitionsVerified), true) else (b, false)
    case GetDefinitionsStatus(req, works) =>
      var (b, ok) := PlainGate(s, req, OPEN_PHASES);
      if !ok || !works then (b, false)
      else (if b.phase == Boot then b.(phase := DefinitionsVerified) else b, true)
    case VerifyOffline(req, works) =>
      var (b, ok) := PlainGate(s, req, {Boot, DefinitionsVerified});
      if ok && works then (b.(phase := OfflineVerified), true) else (b, false)
    case TakeInventory(req, started, listed, total, delivered) =>
      var (b, p) := PolicyGate(s, req, OfflineVerified, setup);
      if p.None? || !started || listed.None? || listed.value == [] || total == 0
         || |listed.value| > p.value.maxFiles || total > p.value.maxBytes then (b, false)
      else (b.(inventory := listed.value, policy := p.value.name, phase := InventoryComplete), delivered)
    case Scan(req, started, scanned, delivered) =>
      var (b, p) := PolicyGate(s, req, InventoryComplete, setup);
      if p.None? || !started || scanned.None? || !Covers(b.inventory, scanned.value) then (b, false)
      else (b.(summary := scanned.value, phase := ScanComplete), delivered)
    case Rebuild(req, started, rebuilt, signing, delivered) =>
      RebuildStep(s, req, started, rebuilt, signing, delivered, setup)
    case GetScanReport(req) =>
      var (b, p) := PolicyGate(s, req, ReportComplete, setup);
      (b, p.Some?)
    case ExportApproved(req, output, sending) =>
      var (b, ok) := Bind(s, req);
      (b, ok && !s.closed && s.phase == ReportComplete && sending.authentic && Promotes(s.report, output)
          && sending.fits && sending.sent)
    case Close(cleaned) =>
      if s.closed then (s, true)
      else if !cleaned then (s, false)
      else (s.(closed := true, phase := Closed, report := None, inventory := [], summary := Summary(false, 0, [])),
            true)
  }

  // ----- the service object

  class ScannerRpc {
    const setup: Setup
    const adapter: Reconstruction.Adapter
    var phase: Phase
    var closed: bool
    var session: string
    var policy: string
    var inventory: seq<Entry>
    var summary: Summary
    var report: Option<Report>

    ghost function View(): Service
      reads this
    {
      Service(phase, closed, session, policy, inventory, summary, report)
    }

    /** Every output that an approved report lists is held by the adapter. */
    ghost predicate Valid()
      reads this, adapter
    {
      && Inv(View())
      && (report.Some? && report.value.draft.approved ==>
            adapter.outputs == Reconstruction.Held(report.value.draft.outputs) && !adapter.closed)
    }

    constructor (setup: Setup)
      ensures Valid() && View() == INITIAL && this.setup == setup && fresh(adapter)
    {
      this.setup := setup;
      adapter := new Reconstruction.Adapter();
      phase, closed, session, policy := Boot, false, "", "";
      inventory, summary, report := [], Summary(false, 0, []), None;
    }

    method BindContext(req: Request) returns (ok: bool)
      modifies this`session
      ensures (View(), ok) == Bind(old(View()), req)
    {
      if req.context.None? || !req.context.value.wellFormed || req.context.value.session == "" {
        return false;
      }
      if session == "" {
        session := req.context.value.session;
        return true;
      }
      return session == req.context.value.session;
    }

    method ValidatePolicyRequest(req: Request, expected: Phase) returns (p: Option<Policy>)
      modifies this`session
      ensures (View(), p) == PolicyGate(old(View()), req, expected, setup)
    {
      var ok := BindContext(req);
      if !ok || closed || phase != expected {
        return None;
      }
      p := setup.policies(req.policy);
      if p.None? || !ValidPolicy(p.value) || p.value.name != req.policy {
        return None;
      }
      if policy != "" && policy != p.value.name {
        return None;
      }
    }

    method ValidateRequest(req: Request, phases: set<Phase>) returns (ok: bool)
      modifies this`session
      ensures (View(), ok) == PlainGate(old(View()), req, phases)
    {
      ok := BindContext(req);
      if !ok || req.policy != "" || closed || phase !in phases {
        return false;
      }
    }

    method UpdateDefinitionDatabase(req: Request, works: bool) returns (ok: bool)
      requires Valid()
      modifies this
      ensures Valid() && (View(), ok) == Step(old(View()), UpdateDefinitions(req, works), setup)
    {
      ok := ValidateRequest(req, {Boot});
      if !ok || !works {
        return false;
      }
      phase := DefinitionsVerified;
    }

    method DefinitionsStatus(req: Request, works: bool) returns (ok: bool)
      requires Valid()
      modifies this
      ensures Valid() && (View(), ok) == Step(old(View()), GetDefinitionsStatus(req, works), setup)
    {
      ok := ValidateRequest(req, OPEN_PHASES);
      if !ok || !works {
        return false;
      }
      if phase == Boot {
        phase := DefinitionsVerified;
      }
    }

    method VerifyOfflineMode(req: Request, works: bool) returns (ok: bool)
      requires Valid()
      modifies this
      ensures Valid() && (View(), ok) == Step(old(View()), VerifyOffline(req, works), setup)
    {
      ok := ValidateRequest(req, {Boot, DefinitionsVerified});
      if !ok || !works {
        return false;
      }
      phase := OfflineVerified;
    }

    method Inventory(req: Request, started: bool, listed: Option<seq<Entry>>, total: nat, delivered: bool)
      returns (ok: bool)
      requires Valid()
      modifies this
      ensures Valid()
      ensures (View(), ok) == Step(old(View()), TakeInventory(req, started, listed, total, delivered), setup)
    {
      var selected := ValidatePolicyRequest(req, OfflineVerified);
      if selected.None? || !started || listed.None? {
        return false;
      }
      if |listed.value| == 0 || total == 0 ||
         |listed.value| > selected.value.maxFiles || total > selected.value.maxBytes {
        return false;
      }
      inventory, policy, phase := listed.value, selected.value.name, InventoryComplete;
      return delivered;
    }

    method ScanFiles(req: Request, started: bool, scanned: Option<Summary>, delivered: bool) returns (ok: bool)
      requires Valid()
      modifies this
      ensures Valid() && (View(), ok) == Step(old(View()), Scan(req, started, scanned, delivered), setup)
    {
      var selected := ValidatePolicyRequest(req, InventoryComplete);
      if selected.None? || !started || scanned.None? {
        return false;
      }
      var covered := ValidateScanSummary(inventory, scanned.value);
      if !covered {
        return false;
      }
      summary, phase := scanned.value, ScanComplete;
      return delivered;
    }

    /** buildReport, its validation and the signature, for a reconstruction that succeeded. */
    method BuildAndSign(e: Evidence, signing: Signing) returns (r: Option<Report>)
      requires e.inventory == inventory && e.scan == summary.findings
      ensures r == if InputsComplete(View()) && signing.sound && signing.signs && ReportHolds(e, policy == "safe")
                   then Some(Report(session, policy, DraftOf(e))) else None
    {
      var inputs := ReportInputs(inventory, summary.findings);
      if inputs.None? {
        return None;
      }
      var findings := e.scan + AllReported(e.own, e.verdicts);
      var sorted := SortByKey(findings, FindingKey);
      var archives := SortByKey(e.archives, ArchiveKey);
      SortedSorts(e.tools, ToolEvidence.SortKey);
      var byName := SortByKey(e.tools, ToolEvidence.SortKey);
      var tools := ToolEvidence.CanonicalTools(e.tools, byName);
      var draft := if Blocked(findings) then Draft(false, sorted, []) else Draft(true, sorted, e.outputs);
      var valid := CheckReport(inputs.value, archives, draft, tools);
      if !signing.sound || !valid || !signing.signs {
        return None;
      }
      return Some(Report(session, policy, draft));
    }

    /** The clauses of the validation, one list after the other. */
    method CheckReport(inputs: seq<Input>, archives: seq<Reconstruction.ArchiveReport>, draft: Draft,
                       tools: seq<ToolEvidence.Tool>)
      returns (ok: bool)
      ensures ok <==> InputsHold(inputs) && ArchivesHold(archives) && FindingsHold(draft.findings) && ToolsHold(tools)
                      && DecisionHolds(draft, policy == "safe")
    {
      ok := CheckStrictlySorted(inputs, PathOfInput);
      if |inputs| == 0 || |inputs| > MAXIMUM_RECORDS || !ok || exists i :: 0 <= i < |inputs| && !ValidInput(inputs[i]) {
        return false;
      }
      ok := CheckStrictlySorted(archives, ArchiveKey);
      if |archives| > MAXIMUM_RECORDS || !ok
         || exists i :: 0 <= i < |archives| && !Reconstruction.Complete(archives[i]) {
        return false;
      }
      ok := CheckStrictlySorted(draft.findings, FindingKey);
      if |draft.findings| > MAXIMUM_RECORDS || !ok
         || exists i :: 0 <= i < |draft.findings| && !NamedWell(draft.findings[i]) {
        return false;
      }
      ok := CheckStrictlySorted(tools, ToolEvidence.NameOf);
      if |tools| == 0 || |tools| > ToolEvidence.MAXIMUM_TOOLS || !ok {
        return false;
      }
      return DecisionHolds(draft, policy == "safe");
    }

    /** What goes into the report; after a failure every output that can be cleaned up is. */
    method RunAdapter(work: Work) returns (done: Reconstruction.Outcome, ghost rebuilt: Rebuilding)
      modifies adapter
      ensures rebuilt == work.Rebuilds(rebuilt.outcome) && done == Reconstructed(View(), rebuilt)
      ensures done.Failed? ==> OnlyStuck(old(adapter.outputs), adapter.outputs, work.cleans)
      ensures done.Done? && !Blocked(summary.findings) ==>
                adapter.outputs == Reconstruction.Held(done.outputs) && !adapter.closed
      ensures Blocked(summary.findings) ==> adapter.outputs == old(adapter.outputs)
    {
      rebuilt := work.Rebuilds(Reconstruction.Failed(Archives.Unavailable));
      if Blocked(summary.findings) {
        return NOTHING, rebuilt;
      }
      var flags := CleanFlags(inventory, summary.findings);
      var result, _, _ := adapter.Reconstruct(work.world, flags, work.limits, work.ready, work.scratch, work.cleans);
      rebuilt := work.Rebuilds(result);
      if result.Failed? || work.expired {
        var _ := adapter.Cleanup(false, work.cleans);
      }
      return if work.expired then Reconstruction.Failed(Archives.Cancelled) else result, rebuilt;
    }

    /**
      Reconstruct with the service's own adapter: the step of the state machine for what the adapter returns.  After a
      failure every output that can be cleaned up is; after a success the adapter holds what the report lists.
     */
    method Reconstruct(req: Request, started: bool, work: Work, signing: Signing, delivered: bool)
      returns (ok: bool, ghost rebuilt: Rebuilding)
      requires Valid()
      modifies this, adapter
      ensures (View(), ok) == RebuildStep(old(View()), req, started, rebuilt, signing, delivered, setup)
      ensures Valid() && rebuilt == work.Rebuilds(rebuilt.outcome)
      ensures report == old(report) ==> OnlyStuck(old(adapter.outputs), adapter.outputs, work.cleans)
    {
      rebuilt := work.Rebuilds(Reconstruction.Failed(Archives.Unavailable));
      var selected := ValidatePolicyRequest(req, ScanComplete);
      if selected.None? || !selected.value.mode.Safe? || !started {
        return false, rebuilt;
      }
      SafeGate(old(View()), req, setup);
      assert report.None? && policy == "safe" && Inv(View());
      var done;
      done, rebuilt := RunAdapter(work);
      if done.Failed? {
        return false, rebuilt;
      }
      var stored := Publish(done, work, rebuilt, signing);
      return stored && delivered, rebuilt;
    }

    /** Builds, signs and stores the report; without one every output that can be cleaned up is. */
    method Publish(done: Reconstruction.Outcome, work: Work, ghost rebuilt: Rebuilding, signing: Signing)
      returns (stored: bool)
      requires Inv(View()) && phase == ScanComplete && policy == "safe"
      requires rebuilt == work.Rebuilds(rebuilt.outcome) && done.Done? && done == Reconstructed(View(), rebuilt)
      requires !Blocked(summary.findings) ==> adapter.outputs == Reconstruction.Held(done.outputs) && !adapter.closed
      modifies this`report, this`phase, adapter
      ensures Valid() && stored == SignedReport(old(View()), rebuilt, signing, setup).Some?
      ensures View() == if !stored then old(View()) else
                        old(View()).(report := SignedReport(old(View()), rebuilt, signing, setup),
                                     phase := ReportComplete)
      ensures !stored ==> forall id :: id in adapter.outputs ==> !work.cleans(id)
    {
      var used := if Blocked(summary.findings) then [] else work.tools;
      var e := Evidence(inventory, summary.findings, done.findings, work.verdicts, done.archives, done.outputs,
                        setup.tools + used);
      assert e == EvidenceOf(View(), done, rebuilt, setup);
      var signed := BuildAndSign(e, signing);
      if signed.None? {
        var _ := adapter.Cleanup(false, work.cleans);
        return false;
      }
      SignedListsOne(View(), rebuilt, signing, setup);
      if signed.value.draft.approved {
        SignedFromAdapter(View(), rebuilt, signing, setup);
      }
      report, phase := signed, ReportComplete;
      return true;
    }

    /** The report is handed out only to its own session and policy. */
    method ScanReport(req: Request) returns (r: Option<Report>)
      requires Valid()
      modifies this`session
      ensures Valid() && (View(), r.Some?) == Step(old(View()), GetScanReport(req), setup)
      ensures r.Some? ==> r == report
    {
      var selected := ValidatePolicyRequest(req, ReportComplete);
      if selected.None? {
        return None;
      }
      return report;
    }

    /** The adapter still holds what an approved report lists; opening and sending it is `sending.sent`. */
    method ExportApprovedOutput(req: Request, output: nat, sending: Sending) returns (ok: bool)
      requires Valid()
      modifies this`session
      ensures Valid() && (View(), ok) == Step(old(View()), ExportApproved(req, output, sending), setup)
    {
      var bound := BindContext(req);
      if !bound || phase != ReportComplete || closed {
        return false;
      }
      if !sending.authentic || !report.value.draft.approved {
        return false;
      }
      var listed := report.value.draft.outputs;
      if !Lists(listed, output) {
        return false;
      }
      if !sending.fits {
        return false;
      }
      if adapter.closed || output !in adapter.outputs {
        return false;
      }
      return sending.sent;
    }

    method CloseService(cancelled: bool, cleans: nat -> bool) returns (ok: bool)
      requires Valid()
      modifies this, adapter
      ensures Valid() && (View(), ok) == Step(old(View()), Close(ok), setup)
      ensures ok && !old(closed) ==> adapter.outputs == map[] && adapter.closed
    {
      if closed {
        return true;
      }
      ok := adapter.Cleanup(cancelled, cleans);
      if !ok {
        return false;
      }
      closed, phase, report := true, Closed, None;
      inventory, summary := [], Summary(false, 0, []);
      return true;
    }
  }

  /** Of what was added, only outputs that cannot be cleaned up are left. */
  ghost predicate OnlyStuck(before: map<nat, Reconstruction.Output>, after: map<nat, Reconstruction.Output>,
                            cleans: nat -> bool)
  {
    forall id :: id in after ==> id in before || !cleans(id)
  }

  /** Only the safe policy gets past the gate of Reconstruct, and it is the one of the inventory. */
  lemma SafeGate(s: Service, req: Request, setup: Setup)
    requires Inv(s) && PolicyGate(s, req, ScanComplete, setup).1.Some?
    requires PolicyGate(s, req, ScanComplete, setup).1.value.mode.Safe?
    ensures s.policy == "safe" && s.report.None? && PolicyGate(s, req, ScanComplete, setup).0 == s
  {
  }

  /** What one reconstruction works with: the content and its environment, the limits and the adapter's readiness. */
  datatype Work = Work(world: Reconstruction.World, limits: Archives.Limits, ready: bool,
                       scratch: Option<Archives.Code>, cleans: nat -> bool,
                       verdicts: Verdicts, tools: seq<ToolEvidence.Tool>, expired: bool)
  {
    function Rebuilds(outcome: Reconstruction.Result): Rebuilding {
      Rebuilding(outcome, verdicts, tools, expired)
    }
  }

  function CleanFlags(inventory: seq<Entry>, findings: seq<Finding>): seq<bool> {
    seq(|inventory|, i requires 0 <= i < |inventory| => Verdict(findings, inventory[i].path) == CLEAN)
  }

  // ----- when there is a report

  /**
    After an accepted scan there is a report exactly when reconstruction, signing and what no content decides succeed,
    inventory, archives, findings and tools can be reported, and something blocks or was produced.
   */
  lemma ReportRefusedExactly(s: Service, r: Rebuilding, signing: Signing, setup: Setup)
    requires Covers(s.inventory, s.summary) && s.policy == "safe"
    requires ToolEvidence.AllValid(setup.tools) && ToolEvidence.AllValid(r.tools)
    ensures SignedReport(s, r, signing, setup).Some? <==>
            var done := Reconstructed(s, r);
            && done.Done? && signing.sound && signing.signs
            && var e := EvidenceOf(s, done, r, setup);
               && Reportable(e.inventory) && ArchivesFit(e.archives) && FindingsFit(FindingsOf(e)) && ToolsFit(e.tools)
               && (Blocked(FindingsOf(e)) || e.outputs != [])
  {
    InputsNeverMissing(s.inventory, s.summary);
    var done := Reconstructed(s, r);
    if done.Done? {
      ReportHoldsExactly(EvidenceOf(s, done, r, setup), true);
    }
  }

  /** An approved report lists exactly one output and nothing that blocks; a rejected one lists none. */
  predicate ListsOne(draft: Draft) {
    if draft.approved then |draft.outputs| == 1 && !Blocked(draft.findings)
    else draft.outputs == [] && Blocked(draft.findings)
  }

  /** An approved report lists what was reconstructed, and its scan was not blocked. */
  lemma SignedFromAdapter(s: Service, r: Rebuilding, signing: Signing, setup: Setup)
    requires SignedReport(s, r, signing, setup).Some? && SignedReport(s, r, signing, setup).value.draft.approved
    ensures !Blocked(s.summary.findings)
    ensures SignedReport(s, r, signing, setup).value.draft.outputs == Reconstructed(s, r).outputs
  {
    var done := Reconstructed(s, r);
    BlockedTogether(s.summary.findings, AllReported(done.findings, r.verdicts));
  }

  lemma SignedListsOne(s: Service, r: Rebuilding, signing: Signing, setup: Setup)
    requires SignedReport(s, r, signing, setup).Some?
    ensures ListsOne(SignedReport(s, r, signing, setup).value.draft)
    ensures FindingsHold(SignedReport(s, r, signing, setup).value.draft.findings)
  {
    var done := Reconstructed(s, r);
    assert |done.outputs| <= 1;
  }

  // ----- runs

  /** The state after the first n calls. */
  function State(calls: seq<Call>, n: nat, setup: Setup): Service
    requires n <= |calls|
  {
    if n == 0 then INITIAL else Step(State(calls, n - 1, setup), calls[n - 1], setup).0
  }

  ghost predicate Inv(s: Service) {
    && (s.closed <==> s.phase == Closed)
    && (s.report.Some? <==> s.phase == ReportComplete)
    && (2 <= Rank(s.phase) <= 5 ==> s.session != "")
    && (3 <= Rank(s.phase) <= 5 ==> s.policy != "")
    && (4 <= Rank(s.phase) <= 5 ==> Covers(s.inventory, s.summary))
    && (s.report.Some? ==> s.report.value.session == s.session && s.report.value.policy == s.policy == "safe")
    && (s.report.Some? ==> ListsOne(s.report.value.draft))
  }

  lemma RebuildKeepsInv(s: Service, call: Call, setup: Setup)
    requires Inv(s) && call.Rebuild?
    ensures Inv(Step(s, call, setup).0)
  {
    var b := PolicyGate(s, call.req, ScanComplete, setup).0;
    var signed := SignedReport(b, call.rebuilt, call.signing, setup);
    if signed.Some? {
      SignedListsOne(b, call.rebuilt, call.signing, setup);
      assert signed.value.session == b.session && signed.value.policy == b.policy;
    }
  }

  lemma StepKeepsInv(s: Service, call: Call, setup: Setup)
    requires Inv(s)
    ensures Inv(Step(s, call, setup).0)
  {
    if call.Rebuild? {
      RebuildKeepsInv(s, call, setup);
    }
  }

  lemma {:induction false} RunKeepsInv(calls: seq<Call>, n: nat, setup: Setup)
    requires n <= |calls|
    ensures Inv(State(calls, n, setup))
  {
    if n == 0 {
    } else {
      RunKeepsInv(calls, n - 1, setup);
      StepKeepsInv(State(calls, n - 1, setup), calls[n - 1], setup);
    }
  }

  /** Later in a run: no earlier phase, and a bound session and a chosen policy stay. */
  predicate Forward(s: Service, t: Service) {
    && Rank(s.phase) <= Rank(t.phase)
    && (s.session != "" ==> t.session == s.session)
    && (s.policy != "" ==> t.policy == s.policy)
  }

  lemma RebuildForward(s: Service, call: Call, setup: Setup)
    requires Inv(s) && call.Rebuild?
    ensures Forward(s, Step(s, call, setup).0)
  {
    GateKeeps(s, call.req, ScanComplete, setup);
    RebuildMoves(s, call.req, call.started, call.rebuilt, call.signing, call.delivered, setup);
  }

  /** A gate may bind the session and changes nothing else. */
  lemma GateKeeps(s: Service, req: Request, phase: Phase, setup: Setup)
    ensures var (b, p) := PolicyGate(s, req, phase, setup);
      b == s.(session := b.session) && (s.session != "" ==> b.session == s.session) && (p.Some? ==> s.phase == phase)
  {
  }

  /** Reconstruct stores a report and moves on, or does nothing behind its gate. */
  lemma RebuildMoves(s: Service, req: Request, started: bool, rebuilt: Rebuilding, signing: Signing, delivered: bool,
                     setup: Setup)
    ensures var (b, p) := PolicyGate(s, req, ScanComplete, setup);
      var t := RebuildStep(s, req, started, rebuilt, signing, delivered, setup).0;
      t == b || (p.Some? && t == b.(report := t.report, phase := ReportComplete))
  {
  }

  lemma StepForward(s: Service, call: Call, setup: Setup)
    requires Inv(s)
    ensures Forward(s, Step(s, call, setup).0)
  {
    if call.Rebuild? {
      RebuildForward(s, call, setup);
    }
  }

  lemma NextForward(calls: seq<Call>, n: nat, setup: Setup)
    requires n < |calls|
    ensures Forward(State(calls, n, setup), State(calls, n + 1, setup))
  {
    RunKeepsInv(calls, n, setup);
    StepForward(State(calls, n, setup), calls[n], setup);
  }

  lemma {:induction false} ForwardChain(states: seq<Service>, m: nat, n: nat)
    requires m <= n < |states| && forall i :: 0 <= i < |states| - 1 ==> Forward(states[i], states[i + 1])
    ensures Forward(states[m], states[n])
    decreases n
  {
    if m < n {
      ForwardChain(states, m, n - 1);
      assert Forward(states[n - 1], states[n - 1 + 1]);
    }
  }

  /** State never moves backwards, over any stretch of any run. */
  lemma NeverBackwards(calls: seq<Call>, m: nat, n: nat, setup: Setup)
    requires m <= n <= |calls|
    ensures Forward(State(calls, m, setup), State(calls, n, setup))
  {
    var states := seq(|calls| + 1, i requires 0 <= i <= |calls| => State(calls, i, setup));
    forall i | 0 <= i < |calls| ensures Forward(states[i], states[i + 1]) {
      NextForward(calls, i, setup);
    }
    ForwardChain(states, m, n);
  }

  lemma ClosedRefuses(s: Service, call: Call, setup: Setup)
    requires Inv(s) && s.closed
    ensures Step(s, call, setup).1 <==> call.Close?
    ensures Step(s, call, setup).0 == s.(session := Step(s, call, setup).0.session)
  {
  }

  /** After Close nothing succeeds but Close. */
  lemma NothingAfterClose(calls: seq<Call>, m: nat, n: nat, setup: Setup)
    requires m <= n < |calls| && State(calls, m, setup).closed
    ensures Step(State(calls, n, setup), calls[n], setup).1 <==> calls[n].Close?
  {
    RunKeepsInv(calls, m, setup);
    RunKeepsInv(calls, n, setup);
    NeverBackwards(calls, m, n, setup);
    ClosedRefuses(State(calls, n, setup), calls[n], setup);
  }

  // ----- the history behind a report

  /** Call i moved the service into `phase`, for `session`. */
  ghost predicate Entered(calls: seq<Call>, i: nat, phase: Phase, session: string, setup: Setup) {
    && i < |calls| && !calls[i].Close? && calls[i].req.context.Some?
    && calls[i].req.context.value.session == session
    && State(calls, i, setup).phase != phase && State(calls, i + 1, setup).phase == phase
  }

  ghost predicate OfflineBefore(calls: seq<Call>, n: nat, session: string, setup: Setup) {
    exists i: nat :: i < n && Entered(calls, i, OfflineVerified, session, setup) && calls[i].VerifyOffline?
  }

  ghost predicate InventoryBefore(calls: seq<Call>, n: nat, session: string, policy: string, setup: Setup) {
    exists i: nat :: i < n && Entered(calls, i, InventoryComplete, session, setup)
      && calls[i].TakeInventory? && calls[i].req.policy == policy && OfflineBefore(calls, i, session, setup)
  }

  ghost predicate ScanBefore(calls: seq<Call>, n: nat, session: string, policy: string, setup: Setup) {
    exists i: nat :: i < n && Entered(calls, i, ScanComplete, session, setup)
      && calls[i].Scan? && calls[i].req.policy == policy && InventoryBefore(calls, i, session, policy, setup)
  }

  ghost predicate RebuildBefore(calls: seq<Call>, n: nat, session: string, policy: string, setup: Setup) {
    exists i: nat :: i < n && Entered(calls, i, ReportComplete, session, setup)
      && calls[i].Rebuild? && calls[i].req.policy == policy && ScanBefore(calls, i, session, policy, setup)
  }

  /** The phase reached after n calls was earned by the calls before it. */
  ghost predicate Earned(calls: seq<Call>, n: nat, setup: Setup)
    requires n <= |calls|
  {
    var s := State(calls, n, setup);
    && (s.phase.OfflineVerified? ==> OfflineBefore(calls, n, s.session, setup))
    && (s.phase.InventoryComplete? ==> InventoryBefore(calls, n, s.session, s.policy, setup))
    && (s.phase.ScanComplete? ==> ScanBefore(calls, n, s.session, s.policy, setup))
    && (s.phase.ReportComplete? ==> RebuildBefore(calls, n, s.session, s.policy, setup))
  }

  /** Only the phase's own RPC enters it, from the phase before, under the service's session and policy. */
  lemma EntryRule(s: Service, call: Call, setup: Setup)
    requires Inv(s)
    ensures var t := Step(s, call, setup).0;
      t.phase != s.phase && 2 <= Rank(t.phase) <= 5 ==>
        && !call.Close? && call.req.context.Some? && call.req.context.value.session == t.session
        && (t.phase.OfflineVerified? ==> call.VerifyOffline?)
        && (t.phase.InventoryComplete? ==>
              call.TakeInventory? && s.phase.OfflineVerified? && call.req.policy == t.policy)
        && (t.phase.ScanComplete? ==> call.Scan? && s.phase.InventoryComplete? && call.req.policy == t.policy)
        && (t.phase.ReportComplete? ==> call.Rebuild? && s.phase.ScanComplete? && call.req.policy == t.policy)
  {
  }

  lemma NextEarned(calls: seq<Call>, n: nat, setup: Setup)
    requires n < |calls| && Earned(calls, n, setup)
    ensures Earned(calls, n + 1, setup)
  {
    var s, t := State(calls, n, setup), State(calls, n + 1, setup);
    RunKeepsInv(calls, n, setup);
    RunKeepsInv(calls, n + 1, setup);
    NextForward(calls, n, setup);
    if t.phase != s.phase {
      EntryRule(s, calls[n], setup);
      if 2 <= Rank(t.phase) <= 5 {
        assert Entered(calls, n, t.phase, t.session, setup);
      }
    }
  }

  lemma {:induction false} AllEarned(calls: seq<Call>, n: nat, setup: Setup)
    requires n <= |calls|
    ensures Earned(calls, n, setup)
  {
    if n == 0 {
    } else {
      AllEarned(calls, n - 1, setup);
      NextEarned(calls, n - 1, setup);
    }
  }

  /** A signed report exists only after isolation, inventory, scan and reconstruction, in that order, for its session
      and its policy, which is the safe one. */
  lemma ReportIsEarned(calls: seq<Call>, n: nat, setup: Setup)
    requires n <= |calls| && State(calls, n, setup).report.Some?
    ensures var r := State(calls, n, setup).report.value;
      r.policy == "safe" && RebuildBefore(calls, n, r.session, r.policy, setup)
  {
    RunKeepsInv(calls, n, setup);
    AllEarned(calls, n, setup);
  }

  /** In every run a signed report lists exactly one output when it is approved, and none when it is rejected. */
  lemma ReportListsOne(calls: seq<Call>, n: nat, setup: Setup)
    requires n <= |calls| && State(calls, n, setup).report.Some?
    ensures ListsOne(State(calls, n, setup).report.value.draft)
  {
    RunKeepsInv(calls, n, setup);
  }

  lemma ExportRule(s: Service, call: Call, setup: Setup)
    requires Inv(s) && call.ExportApproved? && Step(s, call, setup).1
    ensures s.report.Some? && s.report.value.draft.approved
    ensures |s.report.value.draft.outputs| == 1 && s.report.value.draft.outputs[0].id == call.output
    ensures call.req.context.Some? && call.req.context.value.session == s.report.value.session
  {
  }

  /** In every run bytes leave the scanner only as the one output of an approved, earned report, to its session. */
  lemma ExportIsEarned(calls: seq<Call>, n: nat, setup: Setup)
    requires n < |calls| && calls[n].ExportApproved?
    ensures Step(State(calls, n, setup), calls[n], setup).1 ==>
              var s := State(calls, n, setup);
              s.report.Some? && ExportedFrom(calls, n, s.report.value, setup)
  {
    if Step(State(calls, n, setup), calls[n], setup).1 {
      RunKeepsInv(calls, n, setup);
      ExportRule(State(calls, n, setup), calls[n], setup);
      ReportIsEarned(calls, n, setup);
    }
  }

  /** Call n asks for the one output of this approved report, for its session, and the report was earned before. */
  ghost predicate ExportedFrom(calls: seq<Call>, n: nat, r: Report, setup: Setup)
    requires n < |calls| && calls[n].ExportApproved?
  {
    && r.draft.approved && |r.draft.outputs| == 1 && r.draft.outputs[0].id == calls[n].output
    && calls[n].req.context.Some? && calls[n].req.context.value.session == r.session
    && RebuildBefore(calls, n, r.session, "safe", setup)
  }

  // ----- a quarantine with an empty file

  const FILES: seq<Entry> := [Entry("a.txt", "", 1), Entry("b.txt", "", 0)]
  const VERDICTS: seq<Finding> := [Finding("a.txt", CLEAN, "", Info), Finding("b.txt", CLEAN, "", Info)]
  const CLEAN_SCAN: Summary := Summary(true, 2, VERDICTS)

  lemma CleanScanCovers()
    ensures Covers(FILES, CLEAN_SCAN)
  {
    assert ValidCode(CLEAN);
    assert "a.txt"[0] != "b.txt"[0];
    assert VERDICTS[0].path == FILES[0].path && VERDICTS[1].path == FILES[1].path;
    assert Judged(VERDICTS, FILES[0].path) && Judged(VERDICTS, FILES[1].path);
  }

  /** Isolation, inventory and scan of the two files, under the safe policy. */
  function EmptyFileCalls(context: Context): seq<Call> {
    var req := Request(Some(context), "safe");
    [VerifyOffline(Request(Some(context), ""), true), TakeInventory(req, true, Some(FILES), 1, true),
     Scan(req, true, Some(CLEAN_SCAN), true)]
  }

  lemma RunOfThree(calls: seq<Call>, setup: Setup)
    requires |calls| == 3
    ensures State(calls, 3, setup) ==
            Step(Step(Step(INITIAL, calls[0], setup).0, calls[1], setup).0, calls[2], setup).0
  {
    assert State(calls, 1, setup) == Step(INITIAL, calls[0], setup).0;
    assert State(calls, 2, setup) == Step(State(calls, 1, setup), calls[1], setup).0;
  }

  /** A file of one byte and an empty one pass inventory and a clean scan; then no reconstruction leads to a report. */
  lemma EmptyFileIsStuck(context: Context, setup: Setup, p: Policy)
    requires context.wellFormed && context.session != ""
    requires setup.policies("safe") == Some(p) && ValidPolicy(p) && p.mode.Safe? && p.maxFiles >= 2 && p.maxBytes >= 1
    ensures var s := State(EmptyFileCalls(context), 3, setup);
      && s.phase == ScanComplete && s.inventory == FILES
      && forall r: Rebuilding, signing: Signing :: SignedReport(s, r, signing, setup).None?
  {
    var calls := EmptyFileCalls(context);
    CleanScanCovers();
    RunOfThree(calls, setup);
    var s1 := Step(INITIAL, calls[0], setup).0;
    assert s1.phase == OfflineVerified && s1.session == context.session && s1.policy == "";
    var s2 := Step(s1, calls[1], setup).0;
    assert s2.phase == InventoryComplete && s2.inventory == FILES && s2.policy == "safe" && !s2.closed;
    var s := Step(s2, calls[2], setup).0;
    assert s.phase == ScanComplete && s.inventory == FILES;
    assert s.inventory[1].size == 0;
    forall r: Rebuilding, signing: Signing ensures SignedReport(s, r, signing, setup).None? {
      EmptyFileRefused(s, r, signing, setup);
    }
  }

  lemma EmptyFileRefused(s: Service, r: Rebuilding, signing: Signing, setup: Setup)
    requires exists i :: 0 <= i < |s.inventory| && s.inventory[i].size == 0
    ensures SignedReport(s, r, signing, setup).None?
  {
    var i :| 0 <= i < |s.inventory| && s.inventory[i].size == 0;
    var done := Reconstructed(s, r);
    if done.Done? {
      EmptyFileLeavesNoReport(EvidenceOf(s, done, r, setup), s.policy == "safe", i);
    }
  }
}
