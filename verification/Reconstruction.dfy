/**
  Safe-mode reconstruction: every clean inventory entry is classified, archives are expanded
  recursively under one shared budget, and at most one document is rebuilt for promotion.

  What the content, the sandbox, the malware scanner and the transformers answer is a `World`:
  one function per question, asked at a location.  A location is the inventory index followed
  by member indexes, and no location is visited twice, so a World covers every sequence of
  answers, including archives nested without end.
 */
module Reconstruction {
  import opened Bytes
  import opened Archives

  type Location = seq<nat>

  datatype Content = Active | Unsupported | Packed(format: Format) | OtherArchive | Document

  datatype Entry = Entry(name: string, sha: string, size: nat, agrees: bool, content: Content)

  datatype Extraction = ExtractionError(code: Code) | NoExtraction | Extracted(members: nat)
  datatype Scan = ScanError(code: Code) | Summary(complete: bool, scanned: nat, clean: seq<bool>)
  datatype Rebuild = RebuildError(code: Code) | NoOutput | Rebuilt

  datatype World = World(
    entry: Location -> Entry,
    cancelled: Location -> bool,
    interrupted: Location -> bool,
    opening: Location -> Option<Code>,
    listing: Location -> Listing,
    rewinds: Location -> bool,
    extraction: Location -> Extraction,
    scan: Location -> Scan,
    cleanup: Location -> Option<Code>,
    rebuild: Location -> Rebuild,
    newId: Location -> Option<nat>,
    closing: Location -> bool,
    evidence: Location -> Option<Code>)

  datatype Reason =
    | TypeMismatch
    | ActiveContentBlocked
    | UnsupportedType
    | FormatUnsupported
    | Rejected(code: Code)
    | SelectionRequired
    | MemberPathUnsafe
    | NotClean

  /** A blocking finding, reported under `path`, about the entry at `at`. */
  datatype Finding = Finding(reason: Reason, path: string, at: Location)
  datatype Output = Output(id: nat, source: string, where: Location)
  datatype ArchiveReport = ArchiveReport(sha: string, format: Format, depth: nat, entries: nat, expanded: nat)

  /** The three parts of a report key; the source encodes the depth in one byte. */
  datatype Key = Key(sha: string, format: Format, depthByte: nat)

  function KeyOf(a: ArchiveReport): Key {
    Key(a.sha, a.format, a.depth % 256)
  }

  function MemberPath(parent: string, member: string): (path: Option<string>)
    ensures path.None? <==> |parent| + 2 + |member| > MAXIMUM_PATH_BYTES
    ensures path.Some? ==> path.value == parent + "!/" + member
  {
    var value := parent + "!/" + member;
    if |value| <= MAXIMUM_PATH_BYTES then Some(value) else None
  }

  /** The path under which the entry at a location is reported: the archive paths joined, however long. */
  function PathOf(w: World, at: Location): string
    requires at != []
    decreases |at|
  {
    if |at| == 1 then w.entry(at).name else PathOf(w, at[..|at| - 1]) + "!/" + w.entry(at).name
  }

  lemma PathOfMember(w: World, where: Location, i: nat)
    requires where != []
    ensures PathOf(w, where + [i]) == PathOf(w, where) + "!/" + w.entry(where + [i]).name
  {
    assert (where + [i])[..|where|] == where;
  }

  /** A member whose joined path is over the bound. */
  predicate TooLong(w: World, at: Location) {
    |at| > 1 && |PathOf(w, at)| > MAXIMUM_PATH_BYTES
  }

  /** Where a finding is reported: under its entry's own path, or under the archive's when that path is too long. */
  predicate WellPlaced(w: World, f: Finding) {
    if f.at == [] then f.reason.SelectionRequired? && f.path == ""
    else if TooLong(w, f.at) then
      var archive := f.at[..|f.at| - 1];
      f.reason.MemberPathUnsafe? && f.path == PathOf(w, archive) && !TooLong(w, archive)
    else !f.reason.MemberPathUnsafe? && f.path == PathOf(w, f.at)
  }

  ghost predicate AllPlaced(w: World, done: set<Location>, findings: seq<Finding>) {
    && (forall f :: f in findings ==> WellPlaced(w, f))
    && (forall at :: at in done ==> !TooLong(w, at))
  }

  /** Nothing outside the content fails at a location: every command works and every scan is complete. */
  predicate HealthyAt(w: World, at: Location) {
    && !w.cancelled(at) && !w.interrupted(at) && w.opening(at).None? && w.rewinds(at) && w.cleanup(at).None?
    && (w.extraction(at).ExtractionError? ==> ContentRejection(w.extraction(at).code))
    && w.scan(at).Summary? && w.scan(at).complete
    && (w.extraction(at).Extracted? ==> w.scan(at).scanned == |w.scan(at).clean| == w.extraction(at).members)
    && !w.rebuild(at).RebuildError? && w.newId(at).Some? && !w.closing(at) && w.evidence(at).None?
  }

  ghost predicate Healthy(w: World) {
    forall at :: HealthyAt(w, at)
  }

  function EntriesOf(plans: seq<Plan>): nat {
    if plans == [] then 0 else EntriesOf(plans[..|plans| - 1]) + |plans[|plans| - 1].entries|
  }

  function BytesOf(plans: seq<Plan>): nat {
    if plans == [] then 0 else BytesOf(plans[..|plans| - 1]) + plans[|plans| - 1].expanded
  }

  lemma ChargeOne(plans: seq<Plan>, plan: Plan)
    ensures EntriesOf(plans + [plan]) == EntriesOf(plans) + |plan.entries|
    ensures BytesOf(plans + [plan]) == BytesOf(plans) + plan.expanded
  {
    assert (plans + [plan])[..|plans|] == plans;
  }

  /** The archives reported so far are told apart by digest, format and depth. */
  predicate Unrepeated(archives: seq<ArchiveReport>) {
    forall i, j :: 0 <= i < j < |archives| ==>
      archives[i].(entries := 0, expanded := 0) != archives[j].(entries := 0, expanded := 0)
  }

  /** A plan that is worth extracting: not too deep, with members and bytes. */
  predicate Substantial(plan: Plan) {
    plan.depth <= 10 && plan.entries != [] && plan.expanded > 0
  }

  /** What is left of the limits after some entries and bytes were charged. */
  function Left(limits: Limits, entries: nat, expanded: nat): Limits
    requires entries < limits.maxEntries && expanded < limits.maxExpandedBytes
  {
    limits.(maxEntries := limits.maxEntries - entries, maxExpandedBytes := limits.maxExpandedBytes - expanded)
  }

  /** The archive at a location can be charged: something is left, and it is admissible within that and not empty. */
  predicate Chargeable(w: World, at: Location, format: Format, depth: nat, limits: Limits, entries: nat, expanded: nat)
  {
    && entries < limits.maxEntries && expanded < limits.maxExpandedBytes && w.opening(at).None?
    && Admissible(format, w.entry(at).size, w.listing(at), depth, Left(limits, entries, expanded))
    && w.listing(at).headers != [] && Expanded(w.listing(at).headers) > 0
  }

  /** A record the report accepts: at most ten levels deep, and not empty. */
  predicate Complete(a: ArchiveReport) {
    a.depth <= 10 && a.entries > 0 && a.expanded > 0
  }

  /** `reported` holds exactly the keys of the archives, all of them complete. */
  ghost predicate Recorded(archives: seq<ArchiveReport>, reported: set<Key>) {
    && (forall i :: 0 <= i < |archives| ==> Complete(archives[i]))
    && reported == set a | a in archives :: KeyOf(a)
  }

  /** The record is about the archive at a location. */
  predicate IsAbout(w: World, a: ArchiveReport, at: Location) {
    w.entry(at).sha == a.sha && w.entry(at).content == Packed(a.format)
  }

  ghost predicate AllAbout(w: World, archives: seq<ArchiveReport>) {
    forall a :: a in archives ==> exists at :: IsAbout(w, a, at)
  }

  /** The content of an entry is what its digest says. */
  ghost predicate ByDigest(w: World) {
    forall at, bt :: w.entry(at).sha == w.entry(bt).sha ==> w.entry(at).content == w.entry(bt).content
  }

  /** Then archives are told apart by digest and depth alone. */
  lemma ToldApartByDigest(w: World, archives: seq<ArchiveReport>, i: nat, j: nat)
    requires ByDigest(w) && AllAbout(w, archives) && Unrepeated(archives) && i < j < |archives|
    ensures archives[i].sha != archives[j].sha || archives[i].depth != archives[j].depth
  {
    assert archives[i] in archives && archives[j] in archives;
    var at :| IsAbout(w, archives[i], at);
    var bt :| IsAbout(w, archives[j], bt);
    assert archives[i].sha == archives[j].sha ==> archives[i].format == archives[j].format;
  }

  /** Depths that small are told apart by their byte, so an archive with a new key is a new archive. */
  lemma RecordNew(archives: seq<ArchiveReport>, reported: set<Key>, report: ArchiveReport)
    requires Unrepeated(archives) && Recorded(archives, reported) && Complete(report) && KeyOf(report) !in reported
    ensures Unrepeated(archives + [report]) && Recorded(archives + [report], reported + {KeyOf(report)})
  {
    forall i | 0 <= i < |archives|
      ensures archives[i].(entries := 0, expanded := 0) != report.(entries := 0, expanded := 0)
    {
      assert archives[i] in archives;
      assert KeyOf(archives[i]) in reported;
    }
  }

  /** The adapter: outputs it holds, until a clean-up closes it. */
  class Adapter {
    var outputs: map<nat, Output>
    var closed: bool

    constructor ()
      ensures outputs == map[] && !closed
    {
      outputs, closed := map[], false;
    }

    /** Gives back every output that can be cleaned up; closes only when nothing is left. */
    method Cleanup(cancelled: bool, works: nat -> bool) returns (ok: bool)
      modifies this
      ensures ok <==> outputs == map[]
      ensures closed == (old(closed) || ok)
      ensures cancelled ==> outputs == old(outputs)
      ensures !cancelled ==> outputs == map id | id in old(outputs) && !works(id) :: old(outputs)[id]
    {
      ok := true;
      var todo := outputs.Keys;
      while todo != {}
        invariant todo <= old(outputs).Keys
        invariant closed == old(closed)
        invariant cancelled ==> todo == old(outputs).Keys && outputs == old(outputs)
        invariant ok <==> outputs.Keys == todo
        invariant !cancelled ==>
                    outputs == map id | id in old(outputs) && (id in todo || !works(id)) :: old(outputs)[id]
        decreases todo
      {
        if cancelled {
          ok := false;
          break;
        }
        var id :| id in todo;
        todo := todo - {id};
        if works(id) {
          outputs := outputs - {id};
        } else {
          ok := false;
        }
      }
      if ok {
        closed := true;
      }
    }

    /** One reconstruction: one output or a finding on success, nothing kept that could be cleaned up on failure. */
    method Reconstruct(world: World, clean: seq<bool>, limits: Limits, ready: bool, scratch: Option<Code>,
                       works: nat -> bool)
      returns (r: Result, ghost charged: seq<Plan>, ghost done: set<Location>)
      modifies this
      ensures EntriesOf(charged) <= limits.maxEntries && BytesOf(charged) <= limits.maxExpandedBytes
      ensures r.Done? ==> |r.outputs| <= 1 && (|r.outputs| == 1 || r.findings != [])
      ensures r.Done? ==> AllPlaced(world, done, r.findings)
      ensures r.Done? ==> outputs == Held(r.outputs) && !closed
      ensures r.Done? ==> Unrepeated(r.archives) && AllAbout(world, r.archives)
      ensures r.Done? ==> forall i :: 0 <= i < |r.archives| ==> Complete(r.archives[i])
      ensures r.Done? ==> AllExplained(world, done, r.findings, r.outputs)
      ensures r.Done? ==> forall i :: 0 <= i < |clean| && clean[i] ==> [i] in done
      ensures r.Failed? ==> forall id :: id in outputs ==> id in old(outputs) || !works(id)
      ensures old(closed) ==> closed && r.Failed?
      ensures Healthy(world) && Supported(limits) && ready && scratch.None? ==>
                !old(closed) && old(outputs) == map[] ==> r.Done?
      ensures r.Done? && FirstOpens(world, clean, limits) ==> MembersSeen(world, done, r.findings, [0])
    {
      charged, done := [], {};
      if !ready {
        return Failed(Unavailable), charged, done;
      }
      if scratch.Some? {
        var _ := Cleanup(false, works);
        return Failed(scratch.value), charged, done;
      }
      if closed || outputs != map[] {
        return Failed(Unavailable), charged, done;
      }
      var run := new Run(this, world, limits);
      var err := run.ProcessInventory(clean);
      if err.Some? {
        var _ := Cleanup(false, works);
        return Failed(err.value), run.charged, run.done;
      }
      ghost var before := run.View();
      if |run.outputs| != 1 && run.findings == [] {
        run.AddFinding(SelectionRequired, "", []);
        if FirstOpens(world, clean, limits) {
          MembersStillSeen(world, before, run.View(), [0]);
        }
      }
      return Done(run.findings, run.outputs, run.archives), run.charged, run.done;
    }
  }

  datatype Outcome =
    | Failed(code: Code)
    | Done(findings: seq<Finding>, outputs: seq<Output>, archives: seq<ArchiveReport>)

  /** What a reconstruction can return: a success has exactly one output or at least one finding. */
  type Result = o: Outcome | o.Done? ==> |o.outputs| <= 1 && (|o.outputs| == 1 || o.findings != [])
    witness Failed(Unavailable)

  /** The first inventory entry is a clean archive that opens under the full limits, with nothing else failing. */
  ghost predicate FirstOpens(w: World, clean: seq<bool>, limits: Limits) {
    && clean != [] && clean[0] && Healthy(w) && Supported(limits)
    && w.entry([0]).agrees && w.entry([0]).content.Packed? && w.extraction([0]).Extracted?
    && Chargeable(w, [0], w.entry([0]).content.format, 0, limits, 0, 0)
  }

  function Held(outputs: seq<Output>): map<nat, Output> {
    if outputs == [] then map[] else map[outputs[0].id := outputs[0]]
  }

  /** What a run has charged and recorded. */
  datatype Progress = Progress(charged: seq<Plan>, findings: seq<Finding>, outputs: seq<Output>,
                               archives: seq<ArchiveReport>, done: set<Location>)

  /** Nothing charged or recorded is ever taken back. */
  predicate Extends(a: Progress, b: Progress) {
    && a.charged <= b.charged && a.findings <= b.findings && a.outputs <= b.outputs
    && a.archives <= b.archives && a.done <= b.done
  }

  lemma ExtendsTransitive(a: Progress, b: Progress, c: Progress)
    requires Extends(a, b) && Extends(b, c)
    ensures Extends(a, c)
  {
  }

  lemma {:induction false} ChargesGrow(a: seq<Plan>, b: seq<Plan>)
    requires a <= b
    ensures EntriesOf(a) <= EntriesOf(b) && BytesOf(a) <= BytesOf(b)
  {
    if |a| < |b| {
      ChargesGrow(a, b[..|b| - 1]);
    } else {
      assert a == b;
    }
  }

  ghost predicate Noted(findings: seq<Finding>, at: Location) {
    exists f :: f in findings && f.at == at
  }

  ghost predicate Produced(outputs: seq<Output>, at: Location) {
    exists o :: o in outputs && o.where == at
  }

  predicate CleanMember(w: World, at: Location, i: nat) {
    w.scan(at).Summary? && i < |w.scan(at).clean| && w.scan(at).clean[i]
  }

  /** Member i of the archive at `at` was clean and processed, or is the subject of a finding. */
  ghost predicate MemberSeen(w: World, done: set<Location>, findings: seq<Finding>, at: Location, i: nat) {
    Noted(findings, at + [i]) || (CleanMember(w, at, i) && at + [i] in done)
  }

  ghost predicate MembersSeen(w: World, done: set<Location>, findings: seq<Finding>, at: Location) {
    w.extraction(at).Extracted? ==>
      forall i: nat :: i < w.extraction(at).members ==> MemberSeen(w, done, findings, at, i)
  }

  /** Why an entry needs no more attention: a finding, an output, or an archive all of whose members were seen. */
  ghost predicate Explained(w: World, done: set<Location>, findings: seq<Finding>, outputs: seq<Output>, at: Location) {
    Noted(findings, at) ||
    (w.entry(at).agrees &&
     if w.entry(at).content.Packed? then MembersSeen(w, done, findings, at)
     else w.entry(at).content.Document? && (w.rebuild(at).NoOutput? || Produced(outputs, at)))
  }

  ghost predicate AllExplained(w: World, done: set<Location>, findings: seq<Finding>, outputs: seq<Output>) {
    forall at :: at in done ==> Explained(w, done, findings, outputs, at)
  }

  lemma MemberStillSeen(w: World, a: Progress, b: Progress, at: Location, i: nat)
    requires Extends(a, b) && MemberSeen(w, a.done, a.findings, at, i)
    ensures MemberSeen(w, b.done, b.findings, at, i)
  {
    if Noted(a.findings, at + [i]) {
      var f :| f in a.findings && f.at == at + [i];
      assert f in b.findings;
    }
  }

  lemma MembersStillSeen(w: World, a: Progress, b: Progress, at: Location)
    requires Extends(a, b) && MembersSeen(w, a.done, a.findings, at)
    ensures MembersSeen(w, b.done, b.findings, at)
  {
    if w.extraction(at).Extracted? {
      forall i: nat | i < w.extraction(at).members ensures MemberSeen(w, b.done, b.findings, at, i) {
        MemberStillSeen(w, a, b, at, i);
      }
    }
  }

  lemma StillExplained(w: World, a: Progress, b: Progress, at: Location)
    requires Extends(a, b) && Explained(w, a.done, a.findings, a.outputs, at)
    ensures Explained(w, b.done, b.findings, b.outputs, at)
  {
    if Noted(a.findings, at) {
      var f :| f in a.findings && f.at == at;
      assert f in b.findings;
    } else if w.entry(at).content.Packed? {
      MembersStillSeen(w, a, b, at);
    } else if Produced(a.outputs, at) {
      var o :| o in a.outputs && o.where == at;
      assert o in b.outputs;
    }
  }

  /** Recording more never makes a settled entry unsettled. */
  lemma AllStillExplained(w: World, a: Progress, b: Progress)
    requires Extends(a, b) && AllExplained(w, a.done, a.findings, a.outputs)
    requires forall at :: at in b.done - a.done ==> Explained(w, b.done, b.findings, b.outputs, at)
    ensures AllExplained(w, b.done, b.findings, b.outputs)
  {
    forall at | at in b.done ensures Explained(w, b.done, b.findings, b.outputs, at) {
      if at in a.done {
        StillExplained(w, a, b, at);
      }
    }
  }

  class Run {
    const adapter: Adapter
    const world: World
    const limits: Limits
    var entries: nat
    var expanded: nat
    var findings: seq<Finding>
    var outputs: seq<Output>
    var archives: seq<ArchiveReport>
    var reported: set<Key>
    /** Every archive plan accepted for extraction. */
    ghost var charged: seq<Plan>
    /** Every entry that was processed to the end. */
    ghost var done: set<Location>

    ghost function View(): Progress
      reads this
    {
      Progress(charged, findings, outputs, archives, done)
    }

    /** The budget is exactly what was charged and stays within the policy. */
    ghost predicate Paid()
      reads this`entries, this`expanded, this`charged
    {
      && entries == EntriesOf(charged) <= limits.maxEntries
      && expanded == BytesOf(charged) <= limits.maxExpandedBytes
    }

    /** At most one output, held by the adapter; archives recorded once; every settled entry explained. */
    ghost predicate Kept()
      reads this`findings, this`outputs, this`archives, this`reported, this`done, adapter`outputs
    {
      && |outputs| <= 1 && adapter.outputs == Held(outputs)
      && Unrepeated(archives) && Recorded(archives, reported) && AllAbout(world, archives)
      && AllExplained(world, done, findings, outputs)
    }

    /** Every finding is reported where it belongs, and nothing under too long a path was processed. */
    ghost predicate Placed()
      reads this`findings, this`done
    {
      AllPlaced(world, done, findings)
    }

    ghost predicate Valid()
      reads this, adapter
    {
      Paid() && Kept() && Placed()
    }

    /** A location that may be processed, under its own path. */
    ghost predicate At(where: Location, path: string) {
      where != [] && !TooLong(world, where) && path == PathOf(world, where)
    }

    constructor (adapter: Adapter, world: World, limits: Limits)
      requires adapter.outputs == map[]
      ensures Valid() && this.adapter == adapter && this.world == world && this.limits == limits
      ensures View() == Progress([], [], [], [], {})
    {
      this.adapter, this.world, this.limits := adapter, world, limits;
      entries, expanded, findings, outputs, archives, reported, charged := 0, 0, [], [], [], {}, [];
      done := {};
    }

    method AddFinding(reason: Reason, path: string, at: Location)
      requires Valid() && WellPlaced(world, Finding(reason, path, at))
      modifies this`findings
      ensures Valid() && findings == old(findings) + [Finding(reason, path, at)] && Noted(findings, at)
    {
      ghost var before := View();
      findings := findings + [Finding(reason, path, at)];
      assert Finding(reason, path, at) in findings;
      AllStillExplained(world, before, View());
    }

    /** Ghost: the entry at `at` is settled. */
    ghost method Settle(at: Location)
      requires Valid() && Explained(world, done, findings, outputs, at) && !TooLong(world, at)
      modifies this`done
      ensures Valid() && done == old(done) + {at}
    {
      ghost var before := View();
      done := done + {at};
      StillExplained(world, before, View(), at);
      AllStillExplained(world, before, View());
    }

    method AddOutput(output: Output)
      requires Valid() && outputs == []
      modifies this`outputs, adapter`outputs
      ensures Valid() && outputs == [output] && Produced(outputs, output.where)
    {
      ghost var before := View();
      adapter.outputs := adapter.outputs[output.id := output];
      outputs := outputs + [output];
      assert output in outputs;
      AllStillExplained(world, before, View());
    }

    /** A document: rebuilt if nothing was rebuilt before, and otherwise a finding. */
    method ProcessDocument(where: Location, path: string) returns (err: Option<Code>)
      requires Valid() && At(where, path)
      modifies this`findings, this`outputs, adapter`outputs
      ensures Valid() && Extends(old(View()), View())
      ensures err.None? ==> Noted(findings, where) || world.rebuild(where).NoOutput? || Produced(outputs, where)
      ensures HealthyAt(world, where) ==> err.None?
    {
      if |outputs| != 0 {
        AddFinding(SelectionRequired, path, where);
        return None;
      }
      if world.opening(where).Some? {
        return world.opening(where);
      }
      match world.rebuild(where) {
        case RebuildError(code) =>
          return Some(code);
        case NoOutput =>
          return None;
        case Rebuilt =>
      }
      var id := world.newId(where);
      if id.None? {
        return Some(OtherCode);
      }
      if world.closing(where) || id.value in adapter.outputs {
        return Some(Unavailable);
      }
      AddOutput(Output(id.value, world.entry(where).sha, where));
      return world.evidence(where);
    }

    /** The clean entries of the inventory in order, up to the first failure. */
    method ProcessInventory(clean: seq<bool>) returns (err: Option<Code>)
      requires Valid() && View() == Progress([], [], [], [], {}) && entries == expanded == 0
      modifies this, adapter`outputs
      ensures Valid()
      ensures err.None? ==> forall i :: 0 <= i < |clean| && clean[i] ==> [i] in done
      ensures Healthy(world) && Supported(limits) ==> err.None?
      ensures err.None? && FirstOpens(world, clean, limits) ==> MembersSeen(world, done, findings, [0])
    {
      for i := 0 to |clean|
        invariant Valid()
        invariant forall j :: 0 <= j < i && clean[j] ==> [j] in done
        invariant i == 0 ==> entries == expanded == 0
        invariant i > 0 && FirstOpens(world, clean, limits) ==> MembersSeen(world, done, findings, [0])
      {
        ghost var before := View();
        assert Healthy(world) ==> HealthyAt(world, [i]);
        if world.cancelled([i]) {
          return Some(Cancelled);
        }
        if clean[i] {
          err := ProcessEntry([i], world.entry([i]).name, 0);
          if err.Some? {
            return;
          }
          if i > 0 && FirstOpens(world, clean, limits) {
            MembersStillSeen(world, before, View(), [0]);
          }
        }
      }
      err := None;
    }

    method ProcessEntry(where: Location, path: string, depth: nat) returns (err: Option<Code>)
      requires Valid() && At(where, path)
      modifies this, adapter`outputs
      ensures Valid() && Extends(old(View()), View())
      ensures err.None? ==> where in done
      ensures err.Some? && world.entry(where).content.Packed? ==> !ContentRejection(err.value)
      ensures Healthy(world) && Supported(limits) ==> err.None?
      ensures Healthy(world) && Supported(limits) && Expandable(where, depth, old(entries), old(expanded)) ==>
                MembersSeen(world, done, findings, where)
      decreases limits.maxEntries - entries, 1
    {
      assert Healthy(world) ==> HealthyAt(world, where);
      if world.cancelled(where) {
        return Some(Cancelled);
      }
      ghost var start := View();
      err := ProcessContent(where, path, depth);
      if err.None? {
        ghost var before := View();
        Settle(where);
        ExtendsTransitive(start, before, View());
        if MembersSeen(world, before.done, before.findings, where) {
          MembersStillSeen(world, before, View(), where);
        }
      }
    }

    /** The entry by its type: a finding, an archive or a document. */
    method ProcessContent(where: Location, path: string, depth: nat) returns (err: Option<Code>)
      requires Valid() && At(where, path)
      modifies this, adapter`outputs
      ensures Valid() && Extends(old(View()), View())
      ensures err.None? ==> Explained(world, done, findings, outputs, where)
      ensures err.Some? && world.entry(where).content.Packed? ==> !ContentRejection(err.value)
      ensures Healthy(world) && Supported(limits) ==> err.None?
      ensures Healthy(world) && Supported(limits) && Expandable(where, depth, old(entries), old(expanded)) ==>
                MembersSeen(world, done, findings, where)
      decreases limits.maxEntries - entries, 0, 2
    {
      assert Healthy(world) ==> HealthyAt(world, where);
      var entry := world.entry(where);
      err := None;
      if !entry.agrees {
        AddFinding(TypeMismatch, path, where);
      } else {
        match entry.content {
          case Active =>
            AddFinding(ActiveContentBlocked, path, where);
          case Unsupported =>
            AddFinding(UnsupportedType, path, where);
          case OtherArchive =>
            AddFinding(FormatUnsupported, path, where);
          case Packed(format) =>
            err := AbsorbArchive(where, format, path, depth);
          case Document =>
            err := ProcessDocument(where, path);
        }
      }
    }

    /** An archive; an error that blames its content becomes a finding. */
    method AbsorbArchive(where: Location, format: Format, path: string, depth: nat) returns (err: Option<Code>)
      requires Valid() && At(where, path) && world.entry(where).content == Packed(format)
      modifies this, adapter`outputs
      ensures Valid() && Extends(old(View()), View())
      ensures err.None? ==> Noted(findings, where) || MembersSeen(world, done, findings, where)
      ensures err.Some? ==> !ContentRejection(err.value)
      ensures Healthy(world) && Supported(limits) ==> err.None?
      ensures Healthy(world) && Supported(limits) && world.extraction(where).Extracted? ==>
                Chargeable(world, where, format, depth, limits, old(entries), old(expanded)) ==>
                MembersSeen(world, done, findings, where)
      decreases limits.maxEntries - entries, 0, 1
    {
      assert Healthy(world) ==> HealthyAt(world, where);
      ghost var start := View();
      err := ProcessArchive(where, format, path, depth);
      if err.Some? {
        if world.interrupted(where) {
          return Some(Cancelled);
        }
        if ContentRejection(err.value) {
          ghost var before := View();
          AddFinding(Rejected(err.value), path, where);
          ExtendsTransitive(start, before, View());
          return None;
        }
      }
    }

    /** An archive that is charged and extracted, with so much of the budget used. */
    ghost predicate Expandable(where: Location, depth: nat, used: nat, usedBytes: nat) {
      && world.entry(where).agrees && world.entry(where).content.Packed? && world.extraction(where).Extracted?
      && Chargeable(world, where, world.entry(where).content.format, depth, limits, used, usedBytes)
    }

    /** Inspects an archive with what is left of the budget: planned exactly when it can be charged. */
    method InspectWithinBudget(where: Location, format: Format, depth: nat) returns (r: Inspection)
      requires Paid()
      ensures r.Planned? <==> Chargeable(world, where, format, depth, limits, entries, expanded)
      ensures r.Planned? ==> Substantial(r.plan) && r.plan.format == format
      ensures r.Planned? ==> 0 < |r.plan.entries| <= limits.maxEntries - entries
      ensures r.Planned? ==> 0 < r.plan.expanded <= limits.maxExpandedBytes - expanded
      ensures r.Refused? && Supported(limits) && world.opening(where).None? ==> ContentRejection(r.code)
    {
      if entries >= limits.maxEntries || expanded >= limits.maxExpandedBytes {
        return Refused(ArchiveLimitReached);
      }
      var left := Left(limits, entries, expanded);
      if world.opening(where).Some? {
        return Refused(world.opening(where).value);
      }
      r := Inspect(format, world.entry(where).size, world.listing(where), depth, left);
      if r.Planned? && (|r.plan.entries| == 0 || r.plan.expanded == 0) {
        return Refused(ArchiveInvalid);
      }
    }

    /** Charges an archive before anything is extracted from it. */
    method Charge(where: Location, format: Format, depth: nat) returns (r: Inspection)
      requires Paid()
      modifies this`entries, this`expanded, this`charged
      ensures Paid()
      ensures r.Planned? <==> Chargeable(world, where, format, depth, limits, old(entries), old(expanded))
      ensures r.Planned? ==> charged == old(charged) + [r.plan] && entries > old(entries)
      ensures r.Planned? ==> Substantial(r.plan) && r.plan.format == format
      ensures r.Refused? ==> charged == old(charged)
      ensures r.Refused? && Supported(limits) && world.opening(where).None? ==> ContentRejection(r.code)
    {
      r := InspectWithinBudget(where, format, depth);
      if r.Planned? {
        ChargeOne(charged, r.plan);
        entries, expanded := entries + |r.plan.entries|, expanded + r.plan.expanded;
        charged := charged + [r.plan];
      }
    }

    method ProcessArchive(where: Location, format: Format, path: string, depth: nat) returns (err: Option<Code>)
      requires Valid() && At(where, path) && world.entry(where).content == Packed(format)
      modifies this, adapter`outputs
      ensures Valid() && Extends(old(View()), View())
      ensures err.None? ==> MembersSeen(world, done, findings, where)
      ensures Healthy(world) && Supported(limits) ==> err.None? || ContentRejection(err.value)
      ensures Healthy(world) && Supported(limits) && world.extraction(where).Extracted? ==>
                Chargeable(world, where, format, depth, limits, old(entries), old(expanded)) ==> err.None?
      decreases limits.maxEntries - entries, 0, 0
    {
      assert Healthy(world) ==> HealthyAt(world, where);
      ghost var start := View();
      var inspection := Charge(where, format, depth);
      ghost var paid := View();
      assert Extends(start, paid);
      if inspection.Refused? {
        return Some(inspection.code);
      }
      err := Expand(where, inspection.plan, path);
      ExtendsTransitive(start, paid, View());
    }

    /** Extracts a charged archive; a failed removal of the extraction outranks every other error. */
    method Expand(where: Location, plan: Plan, path: string) returns (err: Option<Code>)
      requires Valid() && At(where, path) && Substantial(plan) && world.entry(where).content == Packed(plan.format)
      modifies this, adapter`outputs
      ensures Valid() && Extends(old(View()), View())
      ensures Healthy(world) && Supported(limits) ==> err.None? || ContentRejection(err.value)
      ensures Healthy(world) && Supported(limits) && world.extraction(where).Extracted? ==> err.None?
      ensures err.None? ==> MembersSeen(world, done, findings, where)
      ensures world.rewinds(where) && world.extraction(where).Extracted? && world.cleanup(where).Some? ==>
                err == world.cleanup(where)
      decreases limits.maxEntries - entries, 5
    {
      assert Healthy(world) ==> HealthyAt(world, where);
      if !world.rewinds(where) {
        return Some(ArchiveInvalid);
      }
      match world.extraction(where) {
        case ExtractionError(code) =>
          return Some(code);
        case NoExtraction =>
          return None;
        case Extracted(members) =>
          err := ProcessMembers(where, plan, path, members);
          if world.cleanup(where).Some? {
            err := world.cleanup(where);
          }
      }
    }

    method ProcessMembers(where: Location, plan: Plan, path: string, members: nat) returns (err: Option<Code>)
      requires Valid() && At(where, path) && Substantial(plan) && world.entry(where).content == Packed(plan.format)
      requires world.extraction(where) == Extracted(members)
      modifies this, adapter`outputs
      ensures Valid() && Extends(old(View()), View())
      ensures Healthy(world) && Supported(limits) ==> err.None?
      ensures err.None? ==> MembersSeen(world, done, findings, where)
      decreases limits.maxEntries - entries, 4
    {
      assert Healthy(world) ==> HealthyAt(world, where);
      var scan := world.scan(where);
      if scan.ScanError? {
        return Some(scan.code);
      }
      if !scan.complete || scan.scanned != members || |scan.clean| != members {
        return Some(Unavailable);
      }
      err := ProcessEach(where, plan.depth, path, scan.clean);
      if err.None? {
        var sha := world.entry(where).sha;
        ReportArchive(ArchiveReport(sha, plan.format, plan.depth, |plan.entries|, plan.expanded), where);
      }
    }

    /** The member loop: it ends at the first member that fails. */
    method ProcessEach(where: Location, depth: nat, path: string, clean: seq<bool>) returns (err: Option<Code>)
      requires Valid() && At(where, path)
      requires world.scan(where).Summary? && world.scan(where).clean == clean
      modifies this, adapter`outputs
      ensures Valid() && Extends(old(View()), View())
      ensures Healthy(world) && Supported(limits) ==> err.None?
      ensures err.None? ==> forall i: nat :: i < |clean| ==> MemberSeen(world, done, findings, where, i)
      decreases limits.maxEntries - entries, 3
    {
      ghost var start := View();
      err := None;
      for i := 0 to |clean|
        invariant Valid() && Extends(start, View()) && entries >= old(entries) && err.None?
        invariant forall j: nat :: j < i ==> MemberSeen(world, done, findings, where, j)
      {
        ghost var before := View();
        err := ProcessMember(where, depth, path, i, clean[i]);
        ExtendsTransitive(start, before, View());
        if err.Some? {
          return;
        }
        ChargesGrow(before.charged, charged);
        forall j: nat | j < i ensures MemberSeen(world, done, findings, where, j) {
          MemberStillSeen(world, before, View(), where, j);
        }
      }
    }

    /** One scanned member: a finding if its path is too long or it is not clean, and otherwise an entry of its own. */
    method ProcessMember(where: Location, depth: nat, path: string, i: nat, clean: bool) returns (err: Option<Code>)
      requires Valid() && At(where, path)
      requires world.scan(where).Summary? && i < |world.scan(where).clean| && clean == world.scan(where).clean[i]
      modifies this, adapter`outputs
      ensures Valid() && Extends(old(View()), View())
      ensures err.None? ==> MemberSeen(world, done, findings, where, i)
      ensures Healthy(world) && Supported(limits) ==> err.None?
      decreases limits.maxEntries - entries, 2
    {
      PathOfMember(world, where, i);
      assert (where + [i])[..|where|] == where;
      var memberPath := MemberPath(path, world.entry(where + [i]).name);
      err := None;
      if memberPath.None? {
        AddFinding(MemberPathUnsafe, path, where + [i]);
      } else if !clean {
        AddFinding(NotClean, memberPath.value, where + [i]);
      } else {
        err := ProcessEntry(where + [i], memberPath.value, depth + 1);
      }
    }

    method ReportArchive(report: ArchiveReport, where: Location)
      requires Valid() && Complete(report) && IsAbout(world, report, where)
      modifies this`archives, this`reported
      ensures Valid() && KeyOf(report) in reported
      ensures archives == if KeyOf(report) in old(reported) then old(archives) else old(archives) + [report]
    {
      var key := KeyOf(report);
      if key !in reported {
        RecordNew(archives, reported, report);
        reported, archives := reported + {key}, archives + [report];
      }
    }
  }

  // ----- what a reconstruction without findings means

  /** Without findings a settled entry is the promoted document, a document that yielded nothing, or a clean archive. */
  lemma NothingHidden(w: World, done: set<Location>, outputs: seq<Output>, at: Location)
    requires AllExplained(w, done, [], outputs) && at in done
    ensures w.entry(at).agrees && (w.entry(at).content.Document? || w.entry(at).content.Packed?)
    ensures w.entry(at).content.Document? ==> w.rebuild(at).NoOutput? || Produced(outputs, at)
    ensures w.entry(at).content.Packed? && w.extraction(at).Extracted? ==>
              forall i: nat :: i < w.extraction(at).members ==> CleanMember(w, at, i) && at + [i] in done
  {
    assert Explained(w, done, [], outputs, at);
    if w.entry(at).content.Packed? && w.extraction(at).Extracted? {
      forall i: nat | i < w.extraction(at).members ensures CleanMember(w, at, i) && at + [i] in done {
        assert MemberSeen(w, done, [], at, i);
      }
    }
  }

  /** `path` leads from `at` through extracted archives to one of their members. */
  predicate Leads(w: World, at: Location, path: seq<nat>)
    decreases |path|
  {
    path != [] ==>
      && w.entry(at).content.Packed? && w.extraction(at).Extracted? && path[0] < w.extraction(at).members
      && Leads(w, at + [path[0]], path[1..])
  }

  /** Without findings every member of every archive, however deep, was processed. */
  lemma {:induction false} WholeTreeProcessed(w: World, done: set<Location>, outputs: seq<Output>, at: Location,
                                              path: seq<nat>)
    requires AllExplained(w, done, [], outputs) && at in done && Leads(w, at, path)
    ensures at + path in done
    decreases |path|
  {
    if path == [] {
      assert at + path == at;
    } else {
      NothingHidden(w, done, outputs, at);
      WholeTreeProcessed(w, done, outputs, at + [path[0]], path[1..]);
      assert at + [path[0]] + path[1..] == at + path;
    }
  }

  /** Without findings there is only one document that yields anything, anywhere in the tree. */
  lemma OneDocument(w: World, done: set<Location>, outputs: seq<Output>, a: Location, b: Location)
    requires AllExplained(w, done, [], outputs) && |outputs| <= 1
    requires a in done && w.entry(a).content.Document? && !w.rebuild(a).NoOutput?
    requires b in done && w.entry(b).content.Document? && !w.rebuild(b).NoOutput?
    ensures a == b
  {
    NothingHidden(w, done, outputs, a);
    NothingHidden(w, done, outputs, b);
    var o :| o in outputs && o.where == a;
    var p :| p in outputs && p.where == b;
    assert o == outputs[0] == p;
  }

  // ----- members whose paths are too long

  /** Two findings of the reconstruction itself with the same reason under the same path. */
  predicate Repeated(findings: seq<Finding>) {
    exists i, j :: 0 <= i < j < |findings| && Alike(findings[i], findings[j])
  }

  predicate Alike(f: Finding, g: Finding) {
    f.reason == g.reason && !f.reason.NotClean? && f.path == g.path
  }

  lemma AlikeRepeats(findings: seq<Finding>, f: Finding, g: Finding)
    requires f in findings && g in findings && f != g && Alike(f, g)
    ensures Repeated(findings)
  {
    var i :| 0 <= i < |findings| && findings[i] == f;
    var j :| 0 <= j < |findings| && findings[j] == g;
    assert if i < j then Alike(findings[i], findings[j]) else Alike(findings[j], findings[i]);
  }

  /** A member under too long a path is reported under the path of its archive. */
  lemma LongMemberFinding(w: World, done: set<Location>, findings: seq<Finding>, at: Location, i: nat)
    returns (f: Finding)
    requires at != [] && AllPlaced(w, done, findings) && TooLong(w, at + [i]) && MemberSeen(w, done, findings, at, i)
    ensures f in findings && f.at == at + [i] && f.reason == MemberPathUnsafe && f.path == PathOf(w, at)
  {
    f :| f in findings && f.at == at + [i];
    assert WellPlaced(w, f);
    assert f.at[..|f.at| - 1] == at;
  }

  /** Two such members of one archive are reported in the same words. */
  lemma LongMembersRepeat(w: World, done: set<Location>, findings: seq<Finding>, at: Location, i: nat, j: nat)
    requires at != [] && i != j && AllPlaced(w, done, findings)
    requires TooLong(w, at + [i]) && MemberSeen(w, done, findings, at, i)
    requires TooLong(w, at + [j]) && MemberSeen(w, done, findings, at, j)
    ensures Repeated(findings)
  {
    var f := LongMemberFinding(w, done, findings, at, i);
    var g := LongMemberFinding(w, done, findings, at, j);
    assert f.at[|at|] == i && g.at[|at|] == j;
    AlikeRepeats(findings, f, g);
  }

  const LONG: nat := 4095

  /** A member name of 16 components of 255 characters each; the two names differ in their last character. */
  function LongName(i: nat): string {
    seq(LONG, k => if k % 256 == 255 then '/' else if k == LONG - 1 && i != 0 then 'b' else 'a')
  }

  /** No component is longer than a file name may be. */
  lemma LongNameComponents(i: nat, start: nat)
    requires start + 256 <= LONG
    ensures exists k :: start <= k < start + 256 && LongName(i)[k] == '/'
  {
    var k := start + 255 - start % 256;
    assert k % 256 == 255 && start <= k < start + 256;
    assert LongName(i)[k] == '/';
  }

  function LongHeader(i: nat): Header {
    Header(Regular, false, Some(LongName(i)), 1, 1)
  }

  /** The bytes of a ZIP with these two members stored: local headers and data, directory entries, end record. */
  const ZIP_SIZE: nat := 2 * (30 + LONG + 1) + 2 * (46 + LONG) + 22

  /** One clean ZIP whose two members have names of the full length; nothing fails. */
  function LongNames(): World {
    World(
      at => if |at| <= 1 then Entry("a.zip", "", ZIP_SIZE, true, Packed(Zip))
            else Entry(LongName(at[|at| - 1]), "", 1, true, Document),
      _ => false, _ => false, _ => None, _ => Listing([LongHeader(0), LongHeader(1)], true), _ => true,
      _ => Extracted(2), _ => Summary(true, 2, [true, true]), _ => None, _ => Rebuilt, _ => Some(0), _ => false,
      _ => None)
  }

  /** The limits of the safe policy that ships with the repository, within the scanner's capacity. */
  const SAFE_LIMITS: Limits := Limits(3, 100000, 4096, 134217728, 134217728, 100.0)

  lemma LongNamesOpen()
    ensures FirstOpens(LongNames(), [true], SAFE_LIMITS)
  {
    var w := LongNames();
    var headers := w.listing([0]).headers;
    assert LongName(0)[LONG - 1] != LongName(1)[LONG - 1];
    ExpandedOfTwo(Zip, ZIP_SIZE, LongHeader(0), LongHeader(1));
    assert headers == [LongHeader(0), LongHeader(1)];
    assert Left(SAFE_LIMITS, 0, 0) == SAFE_LIMITS;
    assert Admissible(Zip, ZIP_SIZE, w.listing([0]), 0, SAFE_LIMITS);
  }

  lemma LongNamesAreTooLong(i: nat)
    ensures TooLong(LongNames(), [0, i]) && PathOf(LongNames(), [0]) == "a.zip" && [0, i][..1] == [0]
  {
    assert [0, i][..1] == [0];
    assert PathOf(LongNames(), [0, i]) == PathOf(LongNames(), [0]) + "!/" + LongName(i);
  }

  /** Reconstruction of that archive succeeds, and reports both members in the same words: by the archive's own path. */
  method TwoLongNames() returns (r: Result)
    ensures r.Done? && Repeated(r.findings)
  {
    var w := LongNames();
    LongNamesOpen();
    var adapter := new Adapter();
    ghost var charged;
    ghost var done;
    r, charged, done := adapter.Reconstruct(w, [true], SAFE_LIMITS, true, None, _ => true);
    LongNamesAreTooLong(0);
    LongNamesAreTooLong(1);
    assert [0] + [0] == [0, 0] && [0] + [1] == [0, 1];
    assert MemberSeen(w, done, r.findings, [0], 0) && MemberSeen(w, done, r.findings, [0], 1);
    LongMembersRepeat(w, done, r.findings, [0], 0, 1);
  }
}
