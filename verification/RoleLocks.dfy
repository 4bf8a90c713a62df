/**
  The daemon's per-session operation locks.  Every RPC takes the lock of the session
  it was sent to; four RPCs take a second one while holding the first.  By role the
  nesting is cyclic (scanner -> workstation -> exporter -> scanner), so deadlock
  freedom rests on the workflow states read between the two acquisitions.

  The system is a state machine over any number of RPCs and sessions.  External calls
  made while holding locks are assumed to return; every guard may also fail, in which
  case the RPC unwinds.
 */
module RoleLocks {
  type Id = nat

  datatype Role = Workstation | Downloader | Scanner | Exporter

  datatype Workflow =
    | Unset
      // shared between roles
    | Planned | GuestAuthenticated | VpnConfigured | VpnVerified
      // workstation
    | ImageReady | StorageReady | NetworkReady | VmBooting | DisplayReady | Working
    | Clean | ExportRequired | StopRequested | OutputVerified | VmStopped | SessionDestroyed
      // downloader
    | ScannerUpdatePrepared | DownloaderBooting | MetadataFetching | MetadataReady
    | FileSelectionRequired | CapacityVerified | Downloading | DownloadPaused
    | DownloadComplete | DownloaderStopped | QuarantineSealed
      // scanner
    | UpdateVmBooting | DefinitionsUpdating | DefinitionsVerified | UpdateVmStopped
    | ScanVmBootingOffline | OfflineVerified | QuarantineAttachedReadOnly
    | InventoryComplete | MalwareScanComplete | ReconstructionComplete
    | ReportComplete | PolicyApproved | PolicyRejected | ScanVmStopped
      // exporter
    | UsbIdentified | UsbClaimed | ExporterBooting | NoNetworkVerified | UsbAttached
    | DestinationPrepared | Streaming | StreamComplete | Flushed | PostWriteVerified
    | UsbUnmounted | UsbDetached | ExporterStopped

  /** The closed transition tables of the session manager. */
  predicate Legal(role: Role, a: Workflow, b: Workflow) {
    match role
    case Workstation => LegalWorkstation(a, b)
    case Downloader => LegalDownloader(a, b)
    case Scanner => LegalScanner(a, b)
    case Exporter => LegalExporter(a, b)
  }

  predicate LegalWorkstation(a: Workflow, b: Workflow) {
    match a
    case Unset => b == Planned
    case Planned => b == ImageReady
    case ImageReady => b == StorageReady
    case StorageReady => b == NetworkReady
    case NetworkReady => b == VmBooting
    case VmBooting => b == GuestAuthenticated
    case GuestAuthenticated => b == VpnConfigured
    case VpnConfigured => b == VpnVerified
    case VpnVerified => b == DisplayReady
    case DisplayReady => b == Working
    case Working => b == ExportRequired || b == Clean
    case Clean => b == StopRequested
    case ExportRequired => b == StopRequested
    case StopRequested => b == OutputVerified
    case OutputVerified => b == VmStopped
    case VmStopped => b == SessionDestroyed
    case _ => false
  }

  predicate LegalDownloader(a: Workflow, b: Workflow) {
    match a
    case Unset => b == Planned
    case Planned => b == ScannerUpdatePrepared
    case ScannerUpdatePrepared => b == DownloaderBooting
    case DownloaderBooting => b == GuestAuthenticated
    case GuestAuthenticated => b == VpnConfigured
    case VpnConfigured => b == VpnVerified
    case VpnVerified => b == MetadataFetching
    case MetadataFetching => b == MetadataReady
    case MetadataReady => b == FileSelectionRequired
    case FileSelectionRequired => b == CapacityVerified
    case CapacityVerified => b == Downloading
    case Downloading => b == DownloadPaused || b == DownloadComplete
    case DownloadPaused => b == Downloading || b == DownloadComplete
    case DownloadComplete => b == DownloaderStopped
    case DownloaderStopped => b == QuarantineSealed
    case _ => false
  }

  predicate LegalScanner(a: Workflow, b: Workflow) {
    match a
    case Unset => b == UpdateVmBooting
    case UpdateVmBooting => b == DefinitionsUpdating
    case DefinitionsUpdating => b == DefinitionsVerified
    case DefinitionsVerified => b == UpdateVmStopped
    case UpdateVmStopped => b == ScanVmBootingOffline
    case ScanVmBootingOffline => b == OfflineVerified
    case OfflineVerified => b == QuarantineAttachedReadOnly
    case QuarantineAttachedReadOnly => b == InventoryComplete
    case InventoryComplete => b == MalwareScanComplete
    case MalwareScanComplete => b == ReconstructionComplete
    case ReconstructionComplete => b == ReportComplete
    case ReportComplete => b == PolicyApproved || b == PolicyRejected
    case PolicyApproved => b == ScanVmStopped
    case PolicyRejected => b == ScanVmStopped
    case _ => false
  }

  predicate LegalExporter(a: Workflow, b: Workflow) {
    match a
    case Unset => b == Planned
    case Planned => b == UsbIdentified
    case UsbIdentified => b == UsbClaimed
    case UsbClaimed => b == ExporterBooting
    case ExporterBooting => b == GuestAuthenticated
    case GuestAuthenticated => b == NoNetworkVerified
    case NoNetworkVerified => b == UsbAttached
    case UsbAttached => b == DestinationPrepared
    case DestinationPrepared => b == Streaming
    case Streaming => b == StreamComplete
    case StreamComplete => b == Flushed
    case Flushed => b == PostWriteVerified
    case PostWriteVerified => b == UsbUnmounted
    case UsbUnmounted => b == UsbDetached
    case UsbDetached => b == ExporterStopped
    case _ => false
  }

  datatype Session = Session(role: Role, workflow: Workflow)

  /** `Plain` stands for every RPC that takes one session lock and no other. */
  datatype Rpc =
    | Plain(id: Id)
    | StartScanner(downloader: Id)
    | ApproveToWorkstation(approved: Id)
    | ExportApprovedToUsb(exporter: Id, source: Id)
    | ExportWorkspace(workstation: Id)
  {
    function Outer(): Id {
      match this
      case Plain(id) => id
      case StartScanner(id) => id
      case ApproveToWorkstation(id) => id
      case ExportApprovedToUsb(id, _) => id
      case ExportWorkspace(id) => id
    }
  }

  /** Where an RPC stands with respect to its locks. */
  datatype Stage =
    | Entering            // waits for the outer lock
    | Holding             // holds the outer lock
    | Nesting(inner: Id)  // holds the outer lock, waits for the inner one
    | Both(inner: Id)     // holds both
    | Unwinding           // inner lock released, outer still held
    | Finished

  datatype Thread = Thread(rpc: Rpc, stage: Stage) {
    predicate Holds(id: Id) {
      || (id == rpc.Outer() && !stage.Entering? && !stage.Finished?)
      || (stage.Both? && id == stage.inner)
    }

    predicate HoldsSome() {
      !stage.Entering? && !stage.Finished?
    }

    predicate Waits() {
      stage.Entering? || stage.Nesting?
    }

    function Wanted(): Id
      requires Waits()
    {
      if stage.Entering? then rpc.Outer() else stage.inner
    }
  }

  datatype State = State(sessions: map<Id, Session>, threads: seq<Thread>, locks: map<Id, nat>) {
    predicate Is(id: Id, role: Role) {
      id in sessions && sessions[id].role == role
    }

    predicate At(id: Id, role: Role, workflow: Workflow) {
      id in sessions && sessions[id] == Session(role, workflow)
    }
  }

  const Initial := State(map[], [], map[])

  datatype Event =
    | Create(id: Id, role: Role)                 // CreateSession
    | Arrive(rpc: Rpc)
    | Enter(t: nat)                              // outer Lock returns
    | Nest(t: nat, inner: Id)                    // guards passed, inner Lock called
    | EnterInner(t: nat)                         // inner Lock returns
    | Advance(t: nat, id: Id, to: Workflow)      // TransitionWorkflow under the lock
    | LeaveInner(t: nat)                         // inner Unlock
    | Finish(t: nat)                             // outer Unlock

  /** The checks each nesting RPC makes under its outer lock before asking for the inner one. */
  predicate NestGuard(s: State, rpc: Rpc, inner: Id) {
    match rpc
    case Plain(_) => false
    case StartScanner(d) => s.At(d, Downloader, QuarantineSealed) && inner !in s.sessions
    case ApproveToWorkstation(a) => s.At(a, Scanner, ReportComplete) && inner !in s.sessions
    case ExportApprovedToUsb(e, source) =>
      s.At(e, Exporter, DestinationPrepared) && inner == source && s.At(source, Scanner, PolicyApproved)
    case ExportWorkspace(w) => s.Is(w, Workstation) && s.At(inner, Exporter, DestinationPrepared)
  }

  /** StartScanner and ApproveScanner create the session whose lock they take next. */
  function NestSessions(s: State, rpc: Rpc, inner: Id): map<Id, Session> {
    match rpc
    case StartScanner(_) => s.sessions[inner := Session(Scanner, Unset)]
    case ApproveToWorkstation(_) => s.sessions[inner := Session(Workstation, Unset)]
    case _ => s.sessions
  }

  /** ApproveScanner moves its own scanner only after the fresh workstation's lock is back. */
  predicate MayAdvance(thread: Thread, id: Id) {
    && thread.Holds(id)
    && !thread.stage.Nesting?
    && (thread.rpc.ApproveToWorkstation? && thread.stage.Both? ==> id != thread.rpc.Outer())
  }

  predicate Enabled(s: State, e: Event) {
    match e
    case Create(id, _) => id !in s.sessions
    case Arrive(_) => true
    case Enter(t) => t < |s.threads| && s.threads[t].stage.Entering? && s.threads[t].rpc.Outer() !in s.locks
    case Nest(t, inner) => t < |s.threads| && s.threads[t].stage.Holding? && NestGuard(s, s.threads[t].rpc, inner)
    case EnterInner(t) => t < |s.threads| && s.threads[t].stage.Nesting? && s.threads[t].stage.inner !in s.locks
    case Advance(t, id, to) =>
      && t < |s.threads| && MayAdvance(s.threads[t], id)
      && id in s.sessions && Legal(s.sessions[id].role, s.sessions[id].workflow, to)
    case LeaveInner(t) => t < |s.threads| && s.threads[t].stage.Both?
    case Finish(t) => t < |s.threads| && (s.threads[t].stage.Holding? || s.threads[t].stage.Unwinding?)
  }

  function Moved(s: State, t: nat, stage: Stage): seq<Thread>
    requires t < |s.threads|
  {
    s.threads[t := s.threads[t].(stage := stage)]
  }

  function Apply(s: State, e: Event): State
    requires Enabled(s, e)
  {
    match e
    case Create(id, role) => s.(sessions := s.sessions[id := Session(role, Unset)])
    case Arrive(rpc) => s.(threads := s.threads + [Thread(rpc, Entering)])
    case Enter(t) => s.(threads := Moved(s, t, Holding), locks := s.locks[s.threads[t].rpc.Outer() := t])
    case Nest(t, inner) =>
      s.(threads := Moved(s, t, Nesting(inner)), sessions := NestSessions(s, s.threads[t].rpc, inner))
    case EnterInner(t) =>
      var inner := s.threads[t].stage.inner;
      s.(threads := Moved(s, t, Both(inner)), locks := s.locks[inner := t])
    case Advance(t, id, to) => s.(sessions := s.sessions[id := s.sessions[id].(workflow := to)])
    case LeaveInner(t) =>
      s.(threads := Moved(s, t, Unwinding), locks := s.locks - {s.threads[t].stage.inner})
    case Finish(t) => s.(threads := Moved(s, t, Finished), locks := s.locks - {s.threads[t].rpc.Outer()})
  }

  predicate ValidRun(s: State, es: seq<Event>)
    decreases |es|
  {
    es == [] || (Enabled(s, es[0]) && ValidRun(Apply(s, es[0]), es[1..]))
  }

  function After(s: State, es: seq<Event>): State
    requires ValidRun(s, es)
    decreases |es|
  {
    if es == [] then s else After(Apply(s, es[0]), es[1..])
  }

  ghost predicate Reachable(s: State) {
    exists es :: ValidRun(Initial, es) && After(Initial, es) == s
  }

  // ----- the invariant

  /** An approved scanner never shows REPORT_COMPLETE again. */
  predicate Approved(w: Workflow) {
    w == PolicyApproved || w == ScanVmStopped
  }

  predicate LockMatches(s: State, t: nat, id: Id)
    requires t < |s.threads|
  {
    s.threads[t].Holds(id) <==> id in s.locks && s.locks[id] == t
  }

  ghost predicate LocksMatch(s: State) {
    && (forall id <- s.locks :: s.locks[id] < |s.threads|)
    && (forall t, id :: 0 <= t < |s.threads| ==> LockMatches(s, t, id))
  }

  /** The roles on the two sides of a nesting. */
  ghost predicate RoleFacts(s: State, thread: Thread) {
    thread.stage.Nesting? || thread.stage.Both? ==>
      var inner := thread.stage.inner;
      match thread.rpc
      case Plain(_) => false
      case StartScanner(d) => s.Is(d, Downloader) && s.Is(inner, Scanner)
      case ApproveToWorkstation(a) => s.Is(a, Scanner) && s.Is(inner, Workstation)
      case ExportApprovedToUsb(e, _) => s.Is(e, Exporter) && s.Is(inner, Scanner)
      case ExportWorkspace(w) => s.Is(w, Workstation) && s.Is(inner, Exporter)
  }

  /** The workflow states a nesting RPC relies on while it waits. */
  ghost predicate NestingFacts(s: State, thread: Thread) {
    && RoleFacts(s, thread)
    && (thread.rpc.ApproveToWorkstation? && (thread.stage.Nesting? || thread.stage.Both?) ==>
          s.sessions[thread.rpc.approved].workflow == ReportComplete)
    && (thread.rpc.ExportApprovedToUsb? && thread.stage.Nesting? ==>
          Approved(s.sessions[thread.stage.inner].workflow))
  }

  ghost predicate Inv(s: State) {
    LocksMatch(s) && forall t :: 0 <= t < |s.threads| ==> NestingFacts(s, s.threads[t])
  }

  lemma LockKept(s: State, e: Event, t: nat, id: Id)
    requires Inv(s) && Enabled(s, e) && t < |Apply(s, e).threads|
    ensures LockMatches(Apply(s, e), t, id)
  {
    if t < |s.threads| {
      assert LockMatches(s, t, id);
      if !e.Create? && !e.Arrive? {
        assert LockMatches(s, e.t, id) && NestingFacts(s, s.threads[e.t]);
      }
    }
  }

  lemma LocksKept(s: State, e: Event)
    requires Inv(s) && Enabled(s, e)
    ensures LocksMatch(Apply(s, e))
  {
    var s' := Apply(s, e);
    forall t, id | 0 <= t < |s'.threads| ensures LockMatches(s', t, id) {
      LockKept(s, e, t, id);
    }
  }

  lemma NestingKept(s: State, e: Event, t: nat)
    requires Inv(s) && Enabled(s, e) && t < |Apply(s, e).threads|
    ensures NestingFacts(Apply(s, e), Apply(s, e).threads[t])
  {
    if t < |s.threads| {
      assert NestingFacts(s, s.threads[t]);
      assert LockMatches(s, t, s.threads[t].rpc.Outer());
      if e.Advance? {
        assert LockMatches(s, e.t, e.id);
      }
    }
  }

  lemma StepKeepsInv(s: State, e: Event)
    requires Inv(s) && Enabled(s, e)
    ensures Inv(Apply(s, e))
  {
    LocksKept(s, e);
    forall t | 0 <= t < |Apply(s, e).threads| ensures NestingFacts(Apply(s, e), Apply(s, e).threads[t]) {
      NestingKept(s, e, t);
    }
  }

  lemma {:induction false} RunKeepsInv(s: State, es: seq<Event>)
    requires Inv(s) && ValidRun(s, es)
    ensures Inv(After(s, es))
    decreases |es|
  {
    if es == [] {
    } else {
      StepKeepsInv(s, es[0]);
      RunKeepsInv(Apply(s, es[0]), es[1..]);
    }
  }

  lemma ReachableInv(s: State)
    requires Reachable(s)
    ensures Inv(s)
  {
    var es :| ValidRun(Initial, es) && After(Initial, es) == s;
    RunKeepsInv(Initial, es);
  }

  // ----- deadlock freedom

  /** Thread `t` waits for a lock that some thread holds. */
  predicate Blocked(s: State, t: nat) {
    t < |s.threads| && s.threads[t].Waits() && s.threads[t].Wanted() in s.locks
  }

  /** Thread `t` has a lock step of its own to take. */
  predicate CanStep(s: State, t: nat) {
    Enabled(s, Enter(t)) || Enabled(s, EnterInner(t)) || Enabled(s, LeaveInner(t)) || Enabled(s, Finish(t))
  }

  lemma StepsUnlessBlocked(s: State, t: nat)
    requires t < |s.threads| && !s.threads[t].stage.Finished?
    ensures CanStep(s, t) <==> !Blocked(s, t)
  {
  }

  /** Blocked threads in the order in which they can wait for one another. */
  function WaitRank(thread: Thread): nat {
    if thread.stage.Entering? then 5 else
    match thread.rpc
    case StartScanner(_) => 4
    case ApproveToWorkstation(_) => 3
    case ExportWorkspace(_) => 2
    case ExportApprovedToUsb(_, _) => 1
    case Plain(_) => 0
  }

  lemma WaitsDescend(s: State, t: nat)
    requires Inv(s) && Blocked(s, t) && Blocked(s, s.locks[s.threads[t].Wanted()])
    ensures WaitRank(s.threads[s.locks[s.threads[t].Wanted()]]) < WaitRank(s.threads[t])
  {
    var u := s.locks[s.threads[t].Wanted()];
    assert NestingFacts(s, s.threads[t]) && NestingFacts(s, s.threads[u]);
    assert LockMatches(s, u, s.threads[t].Wanted());
  }

  /** Whenever an RPC waits for a held lock, some RPC that holds a lock can take a step. */
  lemma {:induction false} SomeHolderCanStep(s: State, t: nat) returns (u: nat)
    requires Inv(s) && Blocked(s, t)
    ensures u < |s.threads| && s.threads[u].HoldsSome() && CanStep(s, u)
    decreases WaitRank(s.threads[t])
  {
    u := s.locks[s.threads[t].Wanted()];
    assert LockMatches(s, u, s.threads[t].Wanted());
    if Blocked(s, u) {
      WaitsDescend(s, t);
      u := SomeHolderCanStep(s, u);
    } else {
      StepsUnlessBlocked(s, u);
    }
  }

  lemma DeadlockFree(s: State, t: nat)
    requires Reachable(s) && Blocked(s, t)
    ensures exists u :: 0 <= u < |s.threads| && s.threads[u].HoldsSome() && CanStep(s, u)
  {
    ReachableInv(s);
    var u := SomeHolderCanStep(s, t);
  }

  /** A chain in which each thread waits for a lock the next one holds. */
  ghost predicate WaitChain(s: State, c: seq<nat>) {
    && (forall i :: 0 <= i < |c| ==> Blocked(s, c[i]))
    && (forall i :: 0 < i < |c| ==> s.locks[s.threads[c[i-1]].Wanted()] == c[i])
  }

  lemma {:induction false} ChainDescends(s: State, c: seq<nat>)
    requires Inv(s) && WaitChain(s, c) && |c| >= 2
    ensures WaitRank(s.threads[c[|c|-1]]) + |c| - 1 <= WaitRank(s.threads[c[0]])
    decreases |c|
  {
    assert Blocked(s, c[0]) && Blocked(s, c[1]);
    WaitsDescend(s, c[0]);
    assert s.locks[s.threads[c[0]].Wanted()] == c[1];
    if |c| > 2 {
      var d := c[1..];
      assert forall i :: 0 < i < |d| ==> d[i-1] == c[i] && d[i] == c[i+1];
      ChainDescends(s, d);
    }
  }

  /** No wait cycle of any length, and no wait chain of more than five RPCs. */
  lemma NoWaitCycle(s: State, c: seq<nat>)
    requires Reachable(s) && WaitChain(s, c) && |c| >= 2
    ensures c[0] != c[|c|-1] && |c| <= 5
  {
    ReachableInv(s);
    ChainDescends(s, c);
    assert NestingFacts(s, s.threads[c[|c|-1]]);
  }

  lemma MutualExclusion(s: State, t: nat, u: nat, id: Id)
    requires Reachable(s) && t < |s.threads| && u < |s.threads|
    requires s.threads[t].Holds(id) && s.threads[u].Holds(id)
    ensures t == u
  {
    ReachableInv(s);
    assert LockMatches(s, t, id) && LockMatches(s, u, id);
  }

  /** The workflow reads are needed: roles and lock bookkeeping alone admit a deadlock of three RPCs. */
  lemma RolesAloneCanDeadlock() returns (s: State)
    ensures LocksMatch(s) && s.threads != []
    ensures forall t :: 0 <= t < |s.threads| ==> RoleFacts(s, s.threads[t]) && Blocked(s, t)
  {
    s := State(
      map[1 := Session(Scanner, PolicyApproved), 2 := Session(Workstation, Working),
          3 := Session(Exporter, DestinationPrepared)],
      [Thread(ApproveToWorkstation(1), Nesting(2)), Thread(ExportWorkspace(2), Nesting(3)),
       Thread(ExportApprovedToUsb(3, 1), Nesting(1))],
      map[1 := 0, 2 := 1, 3 := 2]);
  }

  // ----- progress

  /** Lock steps a thread may still take. */
  function StepsLeft(stage: Stage): nat {
    match stage
    case Entering => 5
    case Holding => 4
    case Nesting(_) => 3
    case Both(_) => 2
    case Unwinding => 1
    case Finished => 0
  }

  function Pending(threads: seq<Thread>): nat {
    if threads == [] then 0 else StepsLeft(threads[0].stage) + Pending(threads[1..])
  }

  lemma {:induction false} PendingUpdate(threads: seq<Thread>, t: nat, thread: Thread)
    requires t < |threads|
    ensures Pending(threads[t := thread]) == Pending(threads) - StepsLeft(threads[t].stage) + StepsLeft(thread.stage)
    decreases t
  {
    if t == 0 {
      assert threads[0 := thread][1..] == threads[1..];
    } else {
      assert threads[t := thread][1..] == threads[1..][t-1 := thread];
      PendingUpdate(threads[1..], t - 1, thread);
    }
  }

  lemma {:induction false} PendingAppend(threads: seq<Thread>, thread: Thread)
    ensures Pending(threads + [thread]) == Pending(threads) + StepsLeft(thread.stage)
  {
    if threads == [] {
    } else {
      assert (threads + [thread])[1..] == threads[1..] + [thread];
      PendingAppend(threads[1..], thread);
    }
  }

  lemma {:induction false} PendingZero(threads: seq<Thread>)
    ensures Pending(threads) == 0 <==> forall t :: 0 <= t < |threads| ==> threads[t].stage.Finished?
  {
    if threads == [] {
    } else {
      PendingZero(threads[1..]);
      assert forall t :: 1 <= t < |threads| ==> threads[t] == threads[1..][t-1];
    }
  }

  predicate IsLockStep(e: Event) {
    e.Enter? || e.Nest? || e.EnterInner? || e.LeaveInner? || e.Finish?
  }

  lemma StepUsesPending(s: State, e: Event)
    requires Enabled(s, e)
    ensures e.Arrive? ==> Pending(Apply(s, e).threads) == Pending(s.threads) + 5
    ensures IsLockStep(e) ==> Pending(Apply(s, e).threads) < Pending(s.threads)
    ensures e.Create? || e.Advance? ==> Apply(s, e).threads == s.threads
  {
    if e.Arrive? {
      PendingAppend(s.threads, Thread(e.rpc, Entering));
    } else if IsLockStep(e) {
      PendingUpdate(s.threads, e.t, Apply(s, e).threads[e.t]);
    }
  }

  function Count(es: seq<Event>, p: Event -> bool): nat {
    if es == [] then 0 else (if p(es[0]) then 1 else 0) + Count(es[1..], p)
  }

  /** A run has at most five lock steps per RPC in it. */
  lemma {:induction false} LockStepsBounded(s: State, es: seq<Event>)
    requires ValidRun(s, es)
    ensures Count(es, IsLockStep) <= Pending(s.threads) + 5 * Count(es, (e: Event) => e.Arrive?)
    decreases |es|
  {
    if es == [] {
    } else {
      StepUsesPending(s, es[0]);
      LockStepsBounded(Apply(s, es[0]), es[1..]);
    }
  }

  /** From every reachable state all pending RPCs can still run to their end. */
  lemma {:induction false} CanDrain(s: State) returns (es: seq<Event>)
    requires Inv(s)
    ensures ValidRun(s, es)
    ensures |After(s, es).threads| == |s.threads|
    ensures forall thread <- After(s, es).threads :: thread.stage.Finished?
    decreases Pending(s.threads)
  {
    PendingZero(s.threads);
    if Pending(s.threads) == 0 {
      es := [];
    } else {
      var t :| 0 <= t < |s.threads| && !s.threads[t].stage.Finished?;
      if Blocked(s, t) {
        t := SomeHolderCanStep(s, t);
      } else {
        StepsUnlessBlocked(s, t);
      }
      var e :| e in [Enter(t), EnterInner(t), LeaveInner(t), Finish(t)] && Enabled(s, e);
      StepUsesPending(s, e);
      StepKeepsInv(s, e);
      var rest := CanDrain(Apply(s, e));
      es := [e] + rest;
      assert es[0] == e && es[1..] == rest;
      assert After(s, es) == After(Apply(s, e), rest);
    }
  }
}
