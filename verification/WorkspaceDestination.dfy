/**
  The workstation -> USB destination transaction: preparation under the exporter's
  session lock, the one-shot Receive, the idempotent Abort, and the RPC that commits or
  aborts.  Every external call's outcome is a parameter.
 */
module WorkspaceDestination {
  import opened Bytes

  type Digest = seq<Byte>

  // ----- choosing and locking the exporter

  datatype Candidate = Candidate(id: nat, owner: nat, exporter: bool, active: bool, prepared: bool) {
    predicate Ready(uid: nat) { owner == uid && exporter && active && prepared }
  }

  predicate OnlyReady(sessions: seq<Candidate>, uid: nat, i: nat)
    requires i < |sessions|
  {
    forall j :: 0 <= j < |sessions| ==> (sessions[j].Ready(uid) <==> j == i)
  }

  /** Exactly one ready exporter of this owner is required. */
  method SelectExporter(sessions: seq<Candidate>, uid: nat) returns (r: Option<Candidate>)
    ensures r.Some? <==> exists i :: 0 <= i < |sessions| && OnlyReady(sessions, uid, i)
    ensures r.Some? ==> r.value in sessions && r.value.Ready(uid)
  {
    var candidates: seq<Candidate> := [];
    ghost var at: seq<nat> := [];
    for i := 0 to |sessions|
      invariant |at| == |candidates|
      invariant forall k :: 0 <= k < |at| ==>
                  at[k] < i && candidates[k] == sessions[at[k]] && sessions[at[k]].Ready(uid)
      invariant forall k, l :: 0 <= k < l < |at| ==> at[k] < at[l]
      invariant forall j :: 0 <= j < i && sessions[j].Ready(uid) ==> j in at
    {
      if sessions[i].Ready(uid) {
        candidates := candidates + [sessions[i]];
        at := at + [i];
      }
    }
    if |candidates| != 1 {
      forall i | 0 <= i < |sessions| ensures !OnlyReady(sessions, uid, i) {
        if |at| == 0 {
          assert !sessions[i].Ready(uid);
        } else {
          assert sessions[at[0]].Ready(uid) && sessions[at[1]].Ready(uid) && at[0] != at[1];
        }
      }
      return None;
    }
    assert OnlyReady(sessions, uid, at[0]);
    return Some(candidates[0]);
  }

  /** The exporter's session lock, with the calls made on it. */
  class SessionLock {
    var locks: nat
    var unlocks: nat

    constructor ()
      ensures locks == unlocks == 0
    {
      locks, unlocks := 0, 0;
    }

    predicate Held()
      reads this
    {
      locks == unlocks + 1
    }

    method Lock()
      requires locks == unlocks
      modifies this
      ensures locks == old(locks) + 1 && unlocks == old(unlocks)
    {
      locks := locks + 1;
    }

    method Unlock()
      requires Held()
      modifies this
      ensures unlocks == old(unlocks) + 1 && locks == old(locks)
    {
      unlocks := unlocks + 1;
    }
  }

  // ----- the transaction

  /** What the exporter reports for one verified export. */
  datatype VerifiedExport = VerifiedExport(receiptValid: bool, cleanupComplete: bool, reread: Digest)

  /** Outcomes of the calls one Receive makes; `sessionCleanup` is that of Sessions.Cleanup reaching DESTROYED. */
  datatype ReceiveCalls = ReceiveCalls(
    enrollmentSame: bool, claimSame: bool, beginValid: bool,
    exported: Option<VerifiedExport>, transitions: bool, sessionCleanup: bool)

  /** `unlocks`, `cleanups` and `sourceRuns` record what was done to the lock, the session and the source. */
  datatype Tx = Tx(receiving: bool, finished: bool, cleaned: bool, unlocked: bool,
                   unlocks: nat, cleanups: seq<bool>, sourceRuns: nat)

  const Prepared := Tx(false, false, false, false, 0, [], 0)

  function Cleanup(t: Tx, result: bool): (Tx, bool) {
    if t.cleaned then (t, true) else (t.(cleanups := t.cleanups + [result], cleaned := result), result)
  }

  function ReleaseLock(t: Tx): Tx {
    if t.unlocked then t else t.(unlocked := true, unlocks := t.unlocks + 1)
  }

  /** The reread digest, when the export and its evidence are complete. */
  function Accepted(c: ReceiveCalls): Option<Digest> {
    if c.enrollmentSame && c.claimSame && c.beginValid && c.exported.Some? && c.exported.value.receiptValid
       && |c.exported.value.reread| == 32 && c.exported.value.cleanupComplete && c.transitions
    then Some(c.exported.value.reread)
    else None
  }

  function SourceCalls(c: ReceiveCalls): nat {
    if c.enrollmentSame && c.claimSame then 1 else 0
  }

  /** New state, receiver digest on success, and how often the source callback ran. */
  function ReceiveStep(t: Tx, c: ReceiveCalls): (Tx, Option<Digest>, nat) {
    if t.receiving || t.finished then (t, None, 0) else
    var (t1, clean) := Cleanup(t, c.sessionCleanup);
    (ReleaseLock(t1).(finished := true, sourceRuns := t.sourceRuns + SourceCalls(c)),
     if clean then Accepted(c) else None, SourceCalls(c))
  }

  function AbortStep(t: Tx, result: bool): (Tx, bool) {
    var (t1, clean) := Cleanup(t, result);
    (ReleaseLock(t1), clean)
  }

  class Transaction {
    const lock: SessionLock
    var receiving: bool
    var finished: bool
    var cleaned: bool
    var unlocked: bool
    ghost var unlocks: nat
    ghost var cleanups: seq<bool>
    ghost var sourceRuns: nat

    ghost function View(): Tx
      reads this
    {
      Tx(receiving, finished, cleaned, unlocked, unlocks, cleanups, sourceRuns)
    }

    /** The transaction owns the lock from Prepare until it has released it once. */
    ghost predicate Valid()
      reads this, lock
    {
      if unlocked then unlocks == 1 else unlocks == 0 && lock.Held()
    }

    constructor (lock: SessionLock)
      requires lock.Held()
      ensures Valid() && this.lock == lock && View() == Prepared
    {
      this.lock := lock;
      receiving, finished, cleaned, unlocked := false, false, false, false;
      unlocks, cleanups, sourceRuns := 0, [], 0;
    }

    method CleanupSession(result: bool) returns (ok: bool)
      modifies this`cleaned, this`cleanups
      ensures (View(), ok) == Cleanup(old(View()), result)
    {
      if cleaned {
        return true;
      }
      cleanups := cleanups + [result];
      if !result {
        return false;
      }
      cleaned := true;
      return true;
    }

    method Release()
      requires Valid()
      modifies this`unlocked, this`unlocks, lock
      ensures Valid() && View() == ReleaseLock(old(View()))
      ensures lock.unlocks == old(lock.unlocks) + (if old(unlocked) then 0 else 1) && lock.locks == old(lock.locks)
    {
      if !unlocked {
        lock.Unlock();
        unlocked, unlocks := true, unlocks + 1;
      }
    }

    method Receive(c: ReceiveCalls) returns (digest: Option<Digest>, sourceCalls: nat)
      requires Valid()
      modifies this, lock
      ensures Valid() && (View(), digest, sourceCalls) == ReceiveStep(old(View()), c)
      ensures lock.unlocks - old(lock.unlocks) == unlocks - old(unlocks) && lock.locks == old(lock.locks)
    {
      if receiving || finished {
        return None, 0;
      }
      receiving := true;
      sourceCalls := 0;
      var accepted := false;
      if c.enrollmentSame && c.claimSame {
        sourceCalls, sourceRuns := 1, sourceRuns + 1;
        if c.beginValid && c.exported.Some? {
          var e := c.exported.value;
          accepted := e.receiptValid && |e.reread| == 32 && e.cleanupComplete && c.transitions;
        }
      }
      var clean := CleanupSession(c.sessionCleanup);
      Release();
      receiving := false;
      finished := true;
      digest := if clean && accepted then Some(c.exported.value.reread) else None;
    }

    method Abort(result: bool) returns (ok: bool)
      requires Valid()
      modifies this, lock
      ensures Valid() && (View(), ok) == AbortStep(old(View()), result)
      ensures lock.unlocks - old(lock.unlocks) == unlocks - old(unlocks) && lock.locks == old(lock.locks)
    {
      ok := CleanupSession(result);
      Release();
    }
  }

  // ----- any use of one transaction

  datatype Use = UseReceive(c: ReceiveCalls) | UseAbort(result: bool)

  function Apply(t: Tx, u: Use): Tx {
    match u
    case UseReceive(c) => ReceiveStep(t, c).0
    case UseAbort(result) => AbortStep(t, result).0
  }

  function Uses(t: Tx, us: seq<Use>): Tx
    decreases |us|
  {
    if us == [] then t else Uses(Apply(t, us[0]), us[1..])
  }

  /** Cleanup attempts fail until the first success, and there is none after it. */
  predicate RetriedUntilClean(t: Tx) {
    && (forall i :: 0 <= i < |t.cleanups| - 1 ==> !t.cleanups[i])
    && (t.cleaned <==> t.cleanups != [] && t.cleanups[|t.cleanups| - 1])
  }

  predicate TxInv(t: Tx) {
    && RetriedUntilClean(t)
    && t.unlocks == (if t.unlocked then 1 else 0)
    && (t.cleanups != [] <==> t.unlocked)
    && !t.receiving && t.sourceRuns <= (if t.finished then 1 else 0)
  }

  lemma {:induction false} UsesKeepInv(t: Tx, us: seq<Use>)
    requires TxInv(t)
    ensures TxInv(Uses(t, us))
    decreases |us|
  {
    if us == [] {
    } else {
      UsesKeepInv(Apply(t, us[0]), us[1..]);
    }
  }

  lemma {:induction false} FirstUseUnlocks(t: Tx, us: seq<Use>)
    requires TxInv(t) && (t.unlocked || (us != [] && !t.finished))
    ensures Uses(t, us).unlocked
    decreases |us|
  {
    if us == [] {
    } else {
      UsesKeepInv(t, [us[0]]);
      assert Uses(t, [us[0]]) == Apply(t, us[0]);
      FirstUseUnlocks(Apply(t, us[0]), us[1..]);
    }
  }

  /** However a prepared transaction is used: its lock is released once, cleanup is retried until it succeeds and never
      after, and the source runs at most once in all. */
  lemma AnyUseReleasesOnce(us: seq<Use>)
    ensures var t := Uses(Prepared, us);
      t.unlocks == (if us == [] then 0 else 1) && RetriedUntilClean(t) && t.sourceRuns <= 1
  {
    UsesKeepInv(Prepared, us);
    if us != [] {
      FirstUseUnlocks(Prepared, us);
    }
  }

  // ----- the RPC

  /** `relay` is the digest of the daemon's own relay receipt, when that receipt is valid. */
  datatype RpcCalls = RpcCalls(receive: ReceiveCalls, relay: Option<Digest>, verified: bool, abortCleanup: bool)

  datatype RpcResult = Exported(digest: Digest) | Failed | CleanupIncomplete

  /** Everything after Prepare: receive, compare digests, verify with the guest, commit or abort. */
  method ExportToDestination(t: Transaction, c: RpcCalls) returns (r: RpcResult, ghost sourceCalls: nat)
    requires t.Valid() && t.View() == Prepared
    modifies t, t.lock
    ensures t.unlocked && t.unlocks == 1
    ensures t.lock.unlocks == old(t.lock.unlocks) + 1 && t.lock.locks == old(t.lock.locks) && !t.lock.Held()
    ensures RetriedUntilClean(t.View())
    ensures r.Exported? <==>
              c.receive.sessionCleanup && Accepted(c.receive).Some? && c.relay == Accepted(c.receive) && c.verified
    ensures r.Exported? ==> sourceCalls == t.sourceRuns == 1 && t.cleanups == [true]
    ensures r.Exported? ==> c.relay == Some(r.digest) && c.receive.exported.value.reread == r.digest
    ensures r.CleanupIncomplete? <==> !t.cleaned
    ensures sourceCalls == t.sourceRuns <= 1
  {
    var digest, calls := t.Receive(c.receive);
    sourceCalls := calls;
    assert TxInv(t.View());
    if digest.Some? && calls == 1 && c.relay == digest && c.verified {
      return Exported(digest.value), sourceCalls;
    }
    var clean := t.Abort(c.abortCleanup);
    assert TxInv(t.View());
    r := if clean then Failed else CleanupIncomplete;
  }

  /** Prepare leaves the lock held exactly when it returns a transaction. */
  method Prepare(sessions: seq<Candidate>, uid: nat, lock: SessionLock, unchangedUnderLock: bool, enrolled: bool,
                 claimed: bool)
    returns (t: Transaction?)
    requires lock.locks == lock.unlocks
    modifies lock
    ensures t != null ==> t.Valid() && t.View() == Prepared && t.lock == lock && lock.Held()
    ensures t != null ==> unchangedUnderLock && enrolled && claimed
    ensures t == null ==> lock.locks == lock.unlocks
  {
    var chosen := SelectExporter(sessions, uid);
    if chosen.None? {
      return null;
    }
    lock.Lock();
    if !unchangedUnderLock || !enrolled || !claimed {
      lock.Unlock();
      return null;
    }
    t := new Transaction(lock);
  }
}
