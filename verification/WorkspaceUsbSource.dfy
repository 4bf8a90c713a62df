/**
  The rendezvous between the workstation's frame producer (a goroutine running the
  source callback) and the USB exporter that pulls chunks: an unbuffered channel, one
  acknowledgement channel per frame, one-shot end and idempotent Close.  The protocol is
  a state machine over every interleaving of producer and consumer; the consumer object
  itself is the class ApprovedSource.
 */
module WorkspaceUsbSource {
  import opened Bytes
  import VerifiedTransfer

  const MAXIMUM_DESTINATION_BYTES: nat := 8 * 1024 * 1024 * 1024
  const MAXIMUM_RELAY_CHUNK: nat := 1024 * 1024
  const MAXIMUM_FRAMES: nat := MAXIMUM_DESTINATION_BYTES / MAXIMUM_RELAY_CHUNK + 2

  type Digest = seq<Byte>

  datatype Output = Output(id: string, name: seq<Byte>, media: seq<Byte>, size: nat, digest: Digest)

  const NO_OUTPUT := Output("", [], [], 0, [])

  /** A begin frame carries the output's descriptor, the digest's algorithm, and perhaps a request context. */
  datatype Frame =
    | Begin(output: Output, algorithm: string, hasContext: bool)
    | Chunk(sequence: nat, data: seq<Byte>)
    | End(total: nat, digest: Digest)
    | Unset

  datatype Delivery = Delivery(id: nat, frame: Frame)

  datatype NextResult = Data(sequence: nat, data: seq<Byte>) | Eof | Failure

  /** The consumer's fields; `pending` is the acknowledgement channel of the chunk last returned. */
  datatype Source = Source(
    output: Output, pending: Option<nat>, sequence: nat, written: nat, framesSeen: nat, ended: bool, closed: bool)

  /** The identifiers of workspace outputs: `output-` and 32 lower-case hexadecimal digits. */
  predicate WorkspaceId(id: string) {
    |id| == 39 && id[..7] == "output-" && forall i :: 7 <= i < 39 ==> '0' <= id[i] <= '9' || 'a' <= id[i] <= 'f'
  }

  predicate Approved(o: Output) {
    VerifiedTransfer.ApprovedOutput(o.id, o.name, o.media, o.size, o.digest, MAXIMUM_DESTINATION_BYTES)
  }

  /** The check of the first frame, for the output that was asked for. */
  predicate ValidBegin(f: Frame, expected: string) {
    && f.Begin? && !f.hasContext && f.output.id == expected && WorkspaceId(f.output.id)
    && f.algorithm == "sha256" && |f.output.digest| == 32 && Approved(f.output)
  }

  function Opened(output: Output): Source {
    Source(output, None, 0, 0, 1, false, false)
  }

  predicate ValidChunk(s: Source, f: Frame) {
    f.Chunk? && f.sequence == s.sequence && 0 < |f.data| <= MAXIMUM_RELAY_CHUNK && s.written + |f.data| <= s.output.size
  }

  predicate ValidEnd(s: Source, f: Frame) {
    f.End? && f.total == s.output.size && s.written == s.output.size && f.digest == s.output.digest
  }

  /** What one Next does with the frame it received: new fields, result, and whether it acknowledges and cancels. */
  function Classify(s: Source, d: Delivery): (Source, NextResult, bool, bool) {
    var s' := s.(framesSeen := s.framesSeen + 1);
    if s'.framesSeen > MAXIMUM_FRAMES then (s', Failure, true, true)
    else if ValidChunk(s', d.frame) then
      (s'.(sequence := s.sequence + 1, written := s.written + |d.frame.data|, pending := Some(d.id)),
       Data(d.frame.sequence, d.frame.data), false, false)
    else if d.frame.Chunk? then (s', Failure, true, true)
    else if ValidEnd(s', d.frame) then (s'.(ended := true), Eof, true, false)
    else (s', Failure, true, true)
  }

  function Released(pending: Option<nat>): seq<nat> {
    match pending case None => [] case Some(id) => [id]
  }

  class ApprovedSource {
    const output: Output
    var pending: Option<nat>
    var sequence: nat
    var written: nat
    var framesSeen: nat
    var ended: bool
    var closed: bool
    var closeFailed: bool

    ghost function View(): Source
      reads this
    {
      Source(output, pending, sequence, written, framesSeen, ended, closed)
    }

    constructor (output: Output)
      ensures View() == Opened(output) && !closeFailed
    {
      this.output := output;
      pending, sequence, written, framesSeen, ended, closed, closeFailed := None, 0, 0, 1, false, false, false;
    }

    method AckPending() returns (acks: seq<nat>)
      modifies this`pending
      ensures acks == Released(old(pending)) && pending == None
    {
      acks := if pending.Some? then [pending.value] else [];
      pending := None;
    }

    /** One Next call; `received` is what the channel yielded, None when it closed or the context ended. */
    method Next(received: Option<Delivery>) returns (r: NextResult, acks: seq<nat>, cancel: bool)
      modifies this
      ensures old(closed) ==> View() == old(View()) && r == Failure && acks == [] && !cancel
      ensures !old(closed) && (old(ended) || received.None?) ==>
                && View() == old(View()).(pending := None) && acks == Released(old(pending)) && !cancel
                && r == (if old(ended) then Eof else Failure)
      ensures !old(closed) && !old(ended) && received.Some? ==>
                var (s', r', ack, c) := Classify(old(View()).(pending := None), received.value);
                && View() == s' && r == r' && cancel == c
                && acks == Released(old(pending)) + (if ack then [received.value.id] else [])
    {
      if closed {
        return Failure, [], false;
      }
      acks := AckPending();
      if ended {
        return Eof, acks, false;
      }
      if received.None? {
        return Failure, acks, false;
      }
      var d := received.value;
      framesSeen := framesSeen + 1;
      if framesSeen > MAXIMUM_FRAMES {
        return Failure, acks + [d.id], true;
      }
      if d.frame.Chunk? {
        var chunk := d.frame;
        if chunk.sequence != sequence || |chunk.data| == 0 || |chunk.data| > MAXIMUM_RELAY_CHUNK ||
           written > output.size || |chunk.data| > output.size - written {
          return Failure, acks + [d.id], true;
        }
        sequence := sequence + 1;
        written := written + |chunk.data|;
        pending := Some(d.id);
        return Data(chunk.sequence, chunk.data), acks, false;
      }
      if !(d.frame.End? && d.frame.total == output.size && written == output.size && d.frame.digest == output.digest) {
        return Failure, acks + [d.id], true;
      }
      ended := true;
      return Eof, acks + [d.id], false;
    }

    /** `completion` is the callback's outcome if it came in time: whether it ended with a matching receipt. */
    method Close(completion: Option<bool>) returns (ok: bool, acks: seq<nat>, cancel: bool)
      modifies this
      ensures View() == old(View()).(closed := true, pending := if old(closed) then old(pending) else None)
      ensures acks == (if old(closed) then [] else Released(old(pending))) && cancel == !old(closed)
      ensures ok == if old(closed) then !old(closeFailed) else old(ended) && completion == Some(true)
      ensures closeFailed == !ok
    {
      if closed {
        return !closeFailed, [], false;
      }
      closed := true;
      acks := AckPending();
      if !ended {
        closeFailed := true;
        return false, acks, true;
      }
      closeFailed := completion != Some(true);
      return !closeFailed, acks, true;
    }
  }

  // ----- every interleaving

  /** `Returned` carries whether the callback ended without error and with a matching receipt. */
  datatype Producer = Running | Offering(frame: Frame) | Waiting(id: nat) | Returned(receiptOk: bool)

  datatype Consumer = Opening | Idle | Receiving | Rejected

  /** `taken` are the positions of the returned chunks among the delivered frames, `endAt` that of the accepted end. */
  datatype System = System(
    expected: string, producer: Producer, consumer: Consumer, source: Source, cancelled: bool,
    delivered: seq<Frame>, acks: seq<nat>, chunks: seq<seq<Byte>>, taken: seq<nat>, endAt: Option<nat>,
    last: Option<NextResult>, closedCleanly: bool)

  function Start(expected: string): System {
    System(expected, Running, Opening, Opened(NO_OUTPUT), false, [], [], [], [], None, None, false)
  }

  datatype Event =
    // producer
    | Offer(frame: Frame) | Abandon | Resume | Return(receiptOk: bool)
    // constructor
    | TakeBegin | BeginUnavailable
    // Next: the call, then the channel
    | CallNext | TakeFrame | FrameUnavailable
    // Close
    | CallClose(waited: bool)
    // the context of the RPC ends
    | Cancel

  predicate Enabled(s: System, e: Event) {
    match e
    case Offer(_) => s.producer.Running?
    case Abandon => s.producer.Offering? && s.cancelled
    case Resume => s.producer.Waiting? && s.producer.id in s.acks
    case Return(_) => s.producer.Running?
    case TakeBegin => s.consumer.Opening? && s.producer.Offering?
    case BeginUnavailable => s.consumer.Opening?
    case CallNext => s.consumer.Idle?
    case TakeFrame => s.consumer.Receiving? && s.producer.Offering?
    case FrameUnavailable => s.consumer.Receiving?
    case CallClose(waited) => s.consumer.Idle? && (waited ==> s.producer.Returned?)
    case Cancel => true
  }

  function Deliver(s: System): System
    requires s.producer.Offering?
  {
    s.(delivered := s.delivered + [s.producer.frame], producer := Waiting(|s.delivered|))
  }

  function TakeBeginStep(s: System): System
    requires s.producer.Offering?
  {
    var f := s.producer.frame;
    var s' := Deliver(s).(acks := s.acks + [|s.delivered|]);
    if ValidBegin(f, s.expected) then s'.(consumer := Idle, source := Opened(f.output))
    else s'.(consumer := Rejected, cancelled := true)
  }

  function CallNextStep(s: System): System {
    if s.source.closed then s.(last := Some(Failure)) else
    var s' := s.(source := s.source.(pending := None), acks := s.acks + Released(s.source.pending));
    if s.source.ended then s'.(last := Some(Eof)) else s'.(consumer := Receiving)
  }

  function TakeFrameStep(s: System): System
    requires s.producer.Offering?
  {
    var (source, r, ack, cancel) := Classify(s.source, Delivery(|s.delivered|, s.producer.frame));
    var s' := Deliver(s).(consumer := Idle, source := source, last := Some(r), cancelled := s.cancelled || cancel);
    s'.(acks := if ack then s.acks + [|s.delivered|] else s.acks,
        chunks := if r.Data? then s.chunks + [r.data] else s.chunks,
        taken := if r.Data? then s.taken + [|s.delivered|] else s.taken,
        endAt := if r.Eof? then Some(|s.delivered|) else s.endAt)
  }

  function CloseStep(s: System, waited: bool): System
    requires waited ==> s.producer.Returned?
  {
    if s.source.closed then s else
    s.(source := s.source.(closed := true, pending := None), acks := s.acks + Released(s.source.pending),
       cancelled := true, closedCleanly := s.source.ended && waited && s.producer.receiptOk)
  }

  function Apply(s: System, e: Event): System
    requires Enabled(s, e)
  {
    match e
    case Offer(frame) => s.(producer := Offering(frame))
    case Abandon => s.(producer := Running)
    case Resume => s.(producer := Running)
    case Return(ok) => s.(producer := Returned(ok))
    case TakeBegin => TakeBeginStep(s)
    case BeginUnavailable => s.(consumer := Rejected, cancelled := true)
    case CallNext => CallNextStep(s)
    case TakeFrame => TakeFrameStep(s)
    case FrameUnavailable => s.(consumer := Idle, last := Some(Failure))
    case CallClose(waited) => CloseStep(s, waited)
    case Cancel => s.(cancelled := true)
  }

  predicate ValidRun(s: System, es: seq<Event>)
    decreases |es|
  {
    es == [] || (Enabled(s, es[0]) && ValidRun(Apply(s, es[0]), es[1..]))
  }

  function After(s: System, es: seq<Event>): System
    requires ValidRun(s, es)
    decreases |es|
  {
    if es == [] then s else After(Apply(s, es[0]), es[1..])
  }

  // ----- the invariant

  /** Acknowledgements: none twice, none missing but the pending one, and the producer waits for exactly that one. */
  ghost predicate AckInv(s: System) {
    && Distinct(s.acks)
    && (forall id <- s.acks :: id < |s.delivered|)
    && (forall id: nat :: id < |s.delivered| ==> id in s.acks || s.source.pending == Some(id))
    && (s.source.pending.Some? ==>
          s.source.pending.value !in s.acks && s.producer == Waiting(s.source.pending.value) && s.consumer.Idle?)
    && (s.producer.Waiting? ==> s.producer.id + 1 == |s.delivered|)
  }

  ghost predicate CountInv(s: System) {
    && s.source.written == |Flatten(s.chunks)|
    && s.source.sequence == |s.chunks|
    && (forall k :: 0 <= k < |s.chunks| ==> 0 < |s.chunks[k]| <= MAXIMUM_RELAY_CHUNK)
    && (s.consumer.Opening? || s.consumer.Rejected? ==> s.source == Opened(NO_OUTPUT))
    && (s.consumer.Idle? || s.consumer.Receiving? ==> s.source.written <= s.source.output.size)
    && (s.consumer.Receiving? ==> !s.source.ended && !s.source.closed)
    && (s.source.ended ==> s.source.pending.None? && s.source.written == s.source.output.size)
    && (s.source.pending.Some? ==> s.chunks != [] && s.last == Some(Data(|s.chunks| - 1, s.chunks[|s.chunks| - 1])))
    && (s.last == Some(Eof) ==> s.source.ended)
    && (s.source.closed || s.consumer.Rejected? ==> s.cancelled && s.source.pending.None?)
    && (s.closedCleanly ==> s.source.ended && s.source.closed && s.producer == Returned(true))
  }

  predicate Increasing(positions: seq<nat>) {
    forall j, k :: 0 <= j < k < |positions| ==> positions[j] < positions[k]
  }

  /** Chunk k is the frame delivered at its position, and no position is that of the begin frame. */
  predicate TakenFrom(delivered: seq<Frame>, chunks: seq<seq<Byte>>, taken: seq<nat>) {
    && |taken| == |chunks| && Increasing(taken)
    && forall k :: 0 <= k < |taken| ==> 0 < taken[k] < |delivered| && delivered[taken[k]] == Chunk(k, chunks[k])
  }

  /** The accepted end frame, behind every chunk. */
  predicate EndedAt(delivered: seq<Frame>, output: Output, taken: seq<nat>, at: nat) {
    && at < |delivered| && delivered[at] == End(output.size, output.digest)
    && forall k :: 0 <= k < |taken| ==> taken[k] < at
  }

  /** Everything the consumer passed on came out of the channel, in order, behind the begin frame it describes. */
  ghost predicate OriginInv(s: System) {
    && (s.consumer.Opening? ==> s.delivered == [])
    && (s.consumer.Idle? || s.consumer.Receiving? ==>
          && s.delivered != [] && ValidBegin(s.delivered[0], s.expected) && s.delivered[0].output == s.source.output
          && s.source.framesSeen == |s.delivered|)
    && (s.consumer.Rejected? ==> s.delivered == [] || !ValidBegin(s.delivered[0], s.expected))
    && TakenFrom(s.delivered, s.chunks, s.taken)
    && (s.source.ended <==> s.endAt.Some?)
    && (s.endAt.Some? ==> EndedAt(s.delivered, s.source.output, s.taken, s.endAt.value))
    && (s.endAt.Some? ==> s.endAt.value + 1 <= MAXIMUM_FRAMES)
  }

  ghost predicate Inv(s: System) {
    AckInv(s) && CountInv(s) && OriginInv(s)
  }

  /** Acknowledging a frame that has just been delivered acknowledges nothing twice. */
  lemma AckNewest(acks: seq<nat>, n: nat)
    requires Distinct(acks) && forall id <- acks :: id < n
    ensures Distinct(acks + [n]) && (forall id <- acks + [n] :: id <= n)
    ensures forall id: nat :: id in acks + [n] <==> id in acks || id == n
  {
    var all := acks + [n];
    assert all[|acks|] == n;
    forall i, j | 0 <= i < j < |all| ensures all[i] != all[j] {
      assert all[i] == acks[i] && acks[i] in acks;
    }
  }

  lemma AckKeptByFrame(s: System)
    requires Inv(s) && Enabled(s, TakeFrame)
    ensures AckInv(TakeFrameStep(s))
  {
    AckNewest(s.acks, |s.delivered|);
    assert |TakeFrameStep(s).delivered| == |s.delivered| + 1;
  }

  lemma AckKeptByBegin(s: System)
    requires Inv(s) && Enabled(s, TakeBegin)
    ensures AckInv(TakeBeginStep(s))
  {
    AckNewest(s.acks, |s.delivered|);
    assert |TakeBeginStep(s).delivered| == |s.delivered| + 1;
  }

  lemma AckKeptByCalls(s: System, waited: bool)
    requires Inv(s) && s.consumer.Idle?
    ensures AckInv(CallNextStep(s))
    ensures (waited ==> s.producer.Returned?) ==> AckInv(CloseStep(s, waited))
  {
  }

  lemma AckKept(s: System, e: Event)
    requires Inv(s) && Enabled(s, e)
    ensures AckInv(Apply(s, e))
  {
    match e {
      case TakeBegin => AckKeptByBegin(s);
      case TakeFrame => AckKeptByFrame(s);
      case CallNext => AckKeptByCalls(s, false);
      case CallClose(waited) => AckKeptByCalls(s, waited);
      case _ =>
    }
  }

  lemma CountKeptByFrame(s: System)
    requires Inv(s) && Enabled(s, TakeFrame)
    ensures CountInv(TakeFrameStep(s))
  {
    var (source, r, ack, cancel) := Classify(s.source, Delivery(|s.delivered|, s.producer.frame));
    var s' := TakeFrameStep(s);
    assert s'.source == source && s'.last == Some(r) && s'.consumer.Idle? && s'.closedCleanly == s.closedCleanly;
    if r.Data? {
      FlattenAppend(s.chunks, r.data);
      assert s'.chunks == s.chunks + [r.data] && source.written == s.source.written + |r.data|;
    } else {
      assert s'.chunks == s.chunks && source.written == s.source.written;
    }
  }

  lemma CountKeptByCalls(s: System, waited: bool)
    requires Inv(s) && s.consumer.Idle?
    ensures CountInv(CallNextStep(s))
    ensures (waited ==> s.producer.Returned?) ==> CountInv(CloseStep(s, waited))
  {
  }

  lemma CountKeptByBegin(s: System)
    requires Inv(s) && Enabled(s, TakeBegin)
    ensures CountInv(TakeBeginStep(s))
  {
  }

  lemma CountKept(s: System, e: Event)
    requires Inv(s) && Enabled(s, e)
    ensures CountInv(Apply(s, e))
  {
    match e {
      case TakeBegin => CountKeptByBegin(s);
      case TakeFrame => CountKeptByFrame(s);
      case CallNext => CountKeptByCalls(s, false);
      case CallClose(waited) => CountKeptByCalls(s, waited);
      case _ =>
    }
  }

  lemma OriginKept(s: System, e: Event)
    requires Inv(s) && Enabled(s, e)
    ensures OriginInv(Apply(s, e))
  {
    match e {
      case TakeBegin => OriginKeptByBegin(s);
      case TakeFrame => OriginKeptByFrame(s);
      case CallNext => OriginKeptByCalls(s, false);
      case CallClose(waited) => OriginKeptByCalls(s, waited);
      case _ =>
    }
  }

  lemma OriginKeptByBegin(s: System)
    requires Inv(s) && Enabled(s, TakeBegin)
    ensures OriginInv(TakeBeginStep(s))
  {
    assert TakeBeginStep(s).delivered == [s.producer.frame];
  }

  lemma OriginKeptByCalls(s: System, waited: bool)
    requires Inv(s) && s.consumer.Idle?
    ensures OriginInv(CallNextStep(s))
    ensures (waited ==> s.producer.Returned?) ==> OriginInv(CloseStep(s, waited))
  {
  }

  /** One more delivered frame moves no position; the next chunk goes behind all of them. */
  lemma TakenNext(delivered: seq<Frame>, f: Frame, chunks: seq<seq<Byte>>, taken: seq<nat>)
    requires TakenFrom(delivered, chunks, taken) && delivered != []
    ensures TakenFrom(delivered + [f], chunks, taken)
    ensures f.Chunk? && f.sequence == |chunks| ==>
              TakenFrom(delivered + [f], chunks + [f.data], taken + [|delivered|])
  {
  }

  lemma OriginKeptByFrame(s: System)
    requires Inv(s) && Enabled(s, TakeFrame)
    ensures OriginInv(TakeFrameStep(s))
  {
    var s' := TakeFrameStep(s);
    assert s'.delivered == s.delivered + [s.producer.frame];
    TakenNext(s.delivered, s.producer.frame, s.chunks, s.taken);
  }

  lemma StepKeepsInv(s: System, e: Event)
    requires Inv(s) && Enabled(s, e)
    ensures Inv(Apply(s, e))
  {
    AckKept(s, e);
    CountKept(s, e);
    OriginKept(s, e);
  }

  lemma StepKeepsExpected(s: System, e: Event)
    requires Enabled(s, e)
    ensures Apply(s, e).expected == s.expected
  {
  }

  lemma {:induction false} RunKeepsInv(s: System, es: seq<Event>)
    requires Inv(s) && ValidRun(s, es)
    ensures Inv(After(s, es)) && After(s, es).expected == s.expected
    decreases |es|
  {
    if es == [] {
    } else {
      StepKeepsInv(s, es[0]);
      StepKeepsExpected(s, es[0]);
      RunKeepsInv(Apply(s, es[0]), es[1..]);
    }
  }

  // ----- what every interleaving guarantees

  /** No frame is acknowledged twice, and at most one delivered frame is unacknowledged. */
  lemma AcknowledgedOnce(expected: string, es: seq<Event>)
    requires ValidRun(Start(expected), es)
    ensures var s := After(Start(expected), es);
      && Distinct(s.acks)
      && forall i, j :: 0 <= i < |s.delivered| && 0 <= j < |s.delivered| && i !in s.acks && j !in s.acks ==> i == j
  {
    RunKeepsInv(Start(expected), es);
  }

  /**
    A returned chunk stays the consumer's: of all that can happen, the end of the RPC's context included, exactly the
    consumer's own next Next or Close releases its frame to the producer, which waits for it until then.
   */
  lemma HeldUntilNextCall(expected: string, es: seq<Event>, e: Event)
    requires ValidRun(Start(expected), es) && After(Start(expected), es).source.pending.Some?
    requires Enabled(After(Start(expected), es), e)
    ensures var s := After(Start(expected), es);
      var s' := Apply(s, e);
      var id := s.source.pending.value;
      && s.chunks != [] && s.last == Some(Data(|s.chunks| - 1, s.chunks[|s.chunks| - 1]))
      && id !in s.acks && s.producer == Waiting(id)
      && (id in s'.acks <==> e.CallNext? || e.CallClose?)
      && (id !in s'.acks ==> s'.source == s.source && s'.producer == s.producer && s'.acks == s.acks)
  {
    RunKeepsInv(Start(expected), es);
  }

  /** EOF means: the returned chunks are frames delivered in this order after the begin frame, they have its size
      together, and the end frame behind them has its size and digest. */
  lemma EofIsEarned(expected: string, es: seq<Event>)
    requires ValidRun(Start(expected), es) && After(Start(expected), es).last == Some(Eof)
    ensures var s := After(Start(expected), es);
      && |Flatten(s.chunks)| == s.source.output.size
      && s.delivered != [] && ValidBegin(s.delivered[0], expected) && s.delivered[0].output == s.source.output
      && TakenFrom(s.delivered, s.chunks, s.taken)
      && s.endAt.Some? && EndedAt(s.delivered, s.source.output, s.taken, s.endAt.value)
  {
    RunKeepsInv(Start(expected), es);
  }

  /** After Close or a refused begin, every frame is acknowledged and the producer is never left blocked. */
  lemma ProducerNeverOrphaned(expected: string, es: seq<Event>)
    requires ValidRun(Start(expected), es)
    requires var s := After(Start(expected), es); s.source.closed || s.consumer.Rejected?
    ensures var s := After(Start(expected), es);
      && (forall id: nat :: id < |s.delivered| ==> id in s.acks)
      && (s.producer.Offering? ==> Enabled(s, Abandon))
      && (s.producer.Waiting? ==> Enabled(s, Resume))
  {
    RunKeepsInv(Start(expected), es);
  }

  /** A consumer that waits for a frame never waits for a producer that waits for it. */
  lemma NoMutualWait(expected: string, es: seq<Event>)
    requires ValidRun(Start(expected), es)
    requires var s := After(Start(expected), es); s.consumer.Opening? || s.consumer.Receiving?
    ensures var s := After(Start(expected), es); s.producer.Waiting? ==> Enabled(s, Resume)
  {
    RunKeepsInv(Start(expected), es);
  }

  /** A clean Close follows a complete stream, and the callback has returned with a matching receipt. */
  lemma CleanCloseIsEarned(expected: string, es: seq<Event>)
    requires ValidRun(Start(expected), es) && After(Start(expected), es).closedCleanly
    ensures var s := After(Start(expected), es);
      && s.source.ended && |Flatten(s.chunks)| == s.source.output.size
      && s.producer == Returned(true)
      && forall id: nat :: id < |s.delivered| ==> id in s.acks
  {
    RunKeepsInv(Start(expected), es);
  }

  // ----- the converse: a well-formed stream gets through

  /** Parts of one output that fit into frames, and few enough frames. */
  predicate WellFormed(output: Output, parts: seq<seq<Byte>>) {
    && |Flatten(parts)| == output.size
    && (forall k :: 0 <= k < |parts| ==> 0 < |parts[k]| <= MAXIMUM_RELAY_CHUNK)
    && |parts| + 2 <= MAXIMUM_FRAMES
  }

  /** The frame at position i of the stream that carries them. */
  function FrameAt(begin: Frame, parts: seq<seq<Byte>>, i: nat): Frame
    requires begin.Begin?
  {
    if i == 0 then begin
    else if i <= |parts| then Chunk(i - 1, parts[i - 1])
    else End(begin.output.size, begin.output.digest)
  }

  /** What was delivered so far is the beginning of that stream. */
  predicate Follows(delivered: seq<Frame>, begin: Frame, parts: seq<seq<Byte>>)
    requires begin.Begin?
  {
    |delivered| <= |parts| + 2 && forall i :: 0 <= i < |delivered| ==> delivered[i] == FrameAt(begin, parts, i)
  }

  /** A valid begin frame and well-formed parts of the output it describes. */
  predicate Sound(expected: string, begin: Frame, parts: seq<seq<Byte>>) {
    ValidBegin(begin, expected) && WellFormed(begin.output, parts)
  }

  /** How many of the parts are among the first n frames. */
  function PartsIn(n: nat, parts: seq<seq<Byte>>): (k: nat)
    ensures k <= |parts|
  {
    if n == 0 then 0 else if n - 1 < |parts| then n - 1 else |parts|
  }

  /** Of a stream that follows the parts everything is taken: every chunk, and the end. */
  predicate TakesAll(s: System, begin: Frame, parts: seq<seq<Byte>>)
    requires begin.Begin?
  {
    Follows(s.delivered, begin, parts) ==>
      && s.chunks == parts[..PartsIn(|s.delivered|, parts)]
      && (s.delivered != [] ==> !s.consumer.Rejected?)
      && (s.source.ended <==> |s.delivered| == |parts| + 2)
  }

  lemma {:induction false} FlattenPrefix(parts: seq<seq<Byte>>, k: nat)
    requires k < |parts|
    ensures |Flatten(parts[..k])| + |parts[k]| <= |Flatten(parts)|
  {
    var front, last := parts[..|parts| - 1], parts[|parts| - 1];
    assert parts == front + [last];
    FlattenAppend(front, last);
    if k < |parts| - 1 {
      FlattenPrefix(front, k);
      assert front[..k] == parts[..k];
    }
  }

  /** The next frame of the stream is one the consumer accepts. */
  lemma NextIsValid(s: System, begin: Frame, parts: seq<seq<Byte>>)
    requires Inv(s) && Enabled(s, TakeFrame) && Sound(s.expected, begin, parts) && TakesAll(s, begin, parts)
    requires Follows(s.delivered, begin, parts) && |s.delivered| < |parts| + 2
    requires s.producer.frame == FrameAt(begin, parts, |s.delivered|)
    ensures var n := |s.delivered|;
      && s.source.framesSeen == n && n + 1 <= MAXIMUM_FRAMES
      && if n <= |parts| then s.chunks == parts[..n - 1] && ValidChunk(s.source, s.producer.frame)
         else s.chunks == parts && ValidEnd(s.source, s.producer.frame)
  {
    var n := |s.delivered|;
    if n <= |parts| {
      FlattenPrefix(parts, n - 1);
    } else {
      assert parts[..|parts|] == parts;
    }
  }

  lemma FrameIsTaken(s: System, begin: Frame, parts: seq<seq<Byte>>)
    requires Inv(s) && Enabled(s, TakeFrame) && Sound(s.expected, begin, parts) && TakesAll(s, begin, parts)
    requires Follows(s.delivered + [s.producer.frame], begin, parts)
    ensures TakesAll(TakeFrameStep(s), begin, parts)
  {
    var n := |s.delivered|;
    var delivered := s.delivered + [s.producer.frame];
    assert Follows(s.delivered, begin, parts) by {
      assert forall i :: 0 <= i < n ==> s.delivered[i] == delivered[i];
    }
    assert s.producer.frame == delivered[n] == FrameAt(begin, parts, n);
    NextIsValid(s, begin, parts);
    assert TakeFrameStep(s).delivered == delivered && TakeFrameStep(s).source.framesSeen == n + 1;
    if n <= |parts| {
      assert parts[..n] == parts[..n - 1] + [parts[n - 1]];
      assert TakeFrameStep(s).chunks == parts[..n];
    } else {
      assert TakeFrameStep(s).chunks == parts == parts[..|parts|];
    }
  }

  lemma TakesAllKept(s: System, e: Event, begin: Frame, parts: seq<seq<Byte>>)
    requires Inv(s) && Enabled(s, e) && Sound(s.expected, begin, parts) && TakesAll(s, begin, parts)
    ensures TakesAll(Apply(s, e), begin, parts)
  {
    if e.TakeFrame? && Follows(s.delivered + [s.producer.frame], begin, parts) {
      FrameIsTaken(s, begin, parts);
    } else if e.TakeBegin? {
      assert Follows([s.producer.frame], begin, parts) ==> [s.producer.frame][0] == begin;
      assert parts[..0] == [];
    }
  }

  lemma {:induction false} RunTakesAll(s: System, es: seq<Event>, begin: Frame, parts: seq<seq<Byte>>)
    requires Inv(s) && ValidRun(s, es) && Sound(s.expected, begin, parts) && TakesAll(s, begin, parts)
    ensures TakesAll(After(s, es), begin, parts)
    decreases |es|
  {
    if es == [] {
    } else {
      TakesAllKept(s, es[0], begin, parts);
      RunKeepsInv(s, [es[0]]);
      assert After(s, [es[0]]) == Apply(s, es[0]);
      RunTakesAll(Apply(s, es[0]), es[1..], begin, parts);
    }
  }

  /** In every interleaving: of a well-formed stream every delivered chunk is returned, and its end frame ends it. */
  lemma WellFormedIsTaken(expected: string, es: seq<Event>, begin: Frame, parts: seq<seq<Byte>>)
    requires ValidRun(Start(expected), es) && Sound(expected, begin, parts)
    requires Follows(After(Start(expected), es).delivered, begin, parts)
    ensures var s := After(Start(expected), es);
      && s.chunks == parts[..PartsIn(|s.delivered|, parts)]
      && (s.source.ended <==> |s.delivered| == |parts| + 2)
  {
    assert parts[..0] == [];
    RunTakesAll(Start(expected), es, begin, parts);
  }

  lemma {:induction false} RunAppend(s: System, a: seq<Event>, b: seq<Event>)
    requires ValidRun(s, a) && ValidRun(After(s, a), b)
    ensures ValidRun(s, a + b) && After(s, a + b) == After(After(s, a), b)
    decreases |a|
  {
    if a == [] {
      assert a + b == b;
    } else {
      assert (a + b)[1..] == a[1..] + b;
      RunAppend(Apply(s, a[0]), a[1..], b);
    }
  }

  /** Between two frames: the producer waits for its acknowledgement, the consumer for its caller. */
  predicate BetweenFrames(s: System) {
    s.consumer.Idle? && s.producer.Waiting? && !s.source.closed
  }

  /** One more frame: the next call acknowledges the last one, the producer resumes, offers and is heard. */
  function Round(f: Frame): seq<Event> {
    [CallNext, Resume, Offer(f), TakeFrame]
  }

  lemma RoundDelivers(s: System, f: Frame)
    requires Inv(s) && BetweenFrames(s) && !s.source.ended
    ensures ValidRun(s, Round(f))
    ensures var s' := After(s, Round(f)); BetweenFrames(s') && s'.delivered == s.delivered + [f]
  {
    var es := Round(f);
    var s1 := Apply(s, CallNext);
    AckKept(s, CallNext);
    assert s1.producer.id in s1.acks;
    var s2 := Apply(s1, Resume);
    var s3 := Apply(s2, Offer(f));
    var s4 := Apply(s3, TakeFrame);
    assert es[1..] == [Resume, Offer(f), TakeFrame] && es[1..][1..] == [Offer(f), TakeFrame];
    assert es[1..][1..][1..] == [TakeFrame] && [TakeFrame][1..] == [];
    assert ValidRun(s3, [TakeFrame]) && After(s3, [TakeFrame]) == s4;
    assert ValidRun(s2, [Offer(f), TakeFrame]) && After(s2, [Offer(f), TakeFrame]) == s4;
    assert ValidRun(s1, es[1..]) && After(s1, es[1..]) == s4;
  }

  /** From any point between two frames of a well-formed stream its end can be reached. */
  lemma {:induction false} CanFinish(s: System, begin: Frame, parts: seq<seq<Byte>>) returns (es: seq<Event>)
    requires Inv(s) && Sound(s.expected, begin, parts) && TakesAll(s, begin, parts)
    requires BetweenFrames(s) && s.delivered != [] && Follows(s.delivered, begin, parts)
    ensures ValidRun(s, es) && Inv(After(s, es)) && After(s, es).source.ended && After(s, es).chunks == parts
    ensures After(s, es).delivered != [] && After(s, es).delivered[0] == begin
    decreases |parts| + 2 - |s.delivered|
  {
    if |s.delivered| == |parts| + 2 {
      assert parts[..|parts|] == parts;
      return [];
    }
    var f := FrameAt(begin, parts, |s.delivered|);
    RoundDelivers(s, f);
    var s' := After(s, Round(f));
    RunKeepsInv(s, Round(f));
    RunTakesAll(s, Round(f), begin, parts);
    var rest := CanFinish(s', begin, parts);
    RunAppend(s, Round(f), rest);
    es := Round(f) + rest;
  }

  /** A run in which exactly these parts are returned and the end is reported, behind this begin frame. */
  ghost predicate PassesOn(expected: string, es: seq<Event>, begin: Frame, parts: seq<seq<Byte>>) {
    ValidRun(Start(expected), es) &&
    var s := After(Start(expected), es);
    s.delivered != [] && s.delivered[0] == begin && s.source.ended && s.chunks == parts
  }

  /** Every sound stream can be passed on completely: all its bytes are returned, and its end is reported. */
  lemma SoundReachesEof(expected: string, begin: Frame, parts: seq<seq<Byte>>) returns (es: seq<Event>)
    requires Sound(expected, begin, parts)
    ensures PassesOn(expected, es, begin, parts)
  {
    var first := [Offer(begin), TakeBegin];
    var s0 := Start(expected);
    var s1 := Apply(s0, Offer(begin));
    var s2 := Apply(s1, TakeBegin);
    assert first[1..] == [TakeBegin] && [TakeBegin][1..] == [];
    assert ValidRun(s1, [TakeBegin]) && After(s1, [TakeBegin]) == s2;
    assert ValidRun(s0, first) && After(s0, first) == s2;
    RunKeepsInv(s0, first);
    assert parts[..0] == [];
    RunTakesAll(s0, first, begin, parts);
    var rest := CanFinish(s2, begin, parts);
    RunAppend(s0, first, rest);
    es := first + rest;
  }

  lemma {:induction false} PositionsGrow(positions: seq<nat>, k: nat)
    requires Increasing(positions) && k < |positions| && positions[0] > 0
    ensures positions[k] >= k + 1
  {
    if k == 0 {
    } else {
      PositionsGrow(positions, k - 1);
    }
  }

  /** Whatever is passed on completely was sound: nothing else ends. */
  lemma EndedIsSound(expected: string, es: seq<Event>, begin: Frame, parts: seq<seq<Byte>>)
    requires PassesOn(expected, es, begin, parts)
    ensures Sound(expected, begin, parts)
  {
    RunKeepsInv(Start(expected), es);
    var s := After(Start(expected), es);
    if parts != [] {
      PositionsGrow(s.taken, |parts| - 1);
      assert s.taken[|parts| - 1] < s.endAt.value;
    }
  }

  /** A stream can be passed on to its end if and only if its begin frame is valid and its parts are well-formed. */
  lemma PassedOnExactly(expected: string, begin: Frame, parts: seq<seq<Byte>>)
    ensures (exists es :: PassesOn(expected, es, begin, parts)) <==> Sound(expected, begin, parts)
  {
    if Sound(expected, begin, parts) {
      var es := SoundReachesEof(expected, begin, parts);
    }
    forall es | PassesOn(expected, es, begin, parts) ensures Sound(expected, begin, parts) {
      EndedIsSound(expected, es, begin, parts);
    }
  }

  // ----- the workstation's own streams

  /** The begin frame of the workstation guest: a file's name, size and digest, and no media type. */
  function WorkstationBegin(id: string, name: seq<Byte>, size: nat, digest: Digest): Frame {
    Begin(Output(id, name, [], size, digest), "sha256", false)
  }

  /** That frame is refused for every file. */
  lemma WorkstationBeginIsRefused(expected: string, id: string, name: seq<Byte>, size: nat, digest: Digest)
    ensures !ValidBegin(WorkstationBegin(id, name, size, digest), expected)
  {
  }

  /** So in no interleaving is a chunk of the workstation's stream passed on: the source is never opened. */
  lemma WorkstationNeverPasses(expected: string, es: seq<Event>, id: string, name: seq<Byte>, size: nat, digest: Digest)
    requires ValidRun(Start(expected), es) && After(Start(expected), es).delivered != []
    requires After(Start(expected), es).delivered[0] == WorkstationBegin(id, name, size, digest)
    ensures var s := After(Start(expected), es);
      s.consumer.Rejected? && s.chunks == [] && !s.source.ended && s.last != Some(Eof)
  {
    RunKeepsInv(Start(expected), es);
    WorkstationBeginIsRefused(expected, id, name, size, digest);
  }
}
