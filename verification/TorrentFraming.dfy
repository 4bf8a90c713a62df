/**
  A torrent on its way into the downloader guest: the client cuts its input into host frames,
  the daemon reads them back as a byte stream, the relay cuts that stream into guest frames
  with a look-ahead for the final marker, and the guest reassembles them.
 */
module TorrentFraming {
  import opened Bytes
  import Readers

  const CHUNK: nat := 16384
  const MAXIMUM_FRAMES: nat := 1024
  const MAXIMUM_MAGNET: nat := 8192
  const MAXIMUM_METAINFO: nat := 16777216

  datatype Kind = Magnet | Metainfo

  function Maximum(kind: Kind): nat {
    if kind.Magnet? then MAXIMUM_MAGNET else MAXIMUM_METAINFO
  }

  /** A host frame either carries a chunk or something else. */
  datatype HostFrame = Chunk(data: seq<Byte>) | Other

  /** How a gRPC stream stops after its last frame. */
  datatype Ending = Eof | Broken

  predicate Sized(data: seq<Byte>) {
    0 < |data| <= CHUNK
  }

  function Content(stream: seq<HostFrame>): seq<Byte> {
    if stream == [] then []
    else (if stream[0].Chunk? then stream[0].data else []) + Content(stream[1..])
  }

  /** The frame checks of the host reader, one frame after the other. */
  predicate Admitted(stream: seq<HostFrame>, frames: nat, total: nat, maximum: nat) {
    stream == [] || (
      && stream[0].Chunk? && Sized(stream[0].data)
      && frames + 1 <= MAXIMUM_FRAMES && total + |stream[0].data| <= maximum
      && Admitted(stream[1..], frames + 1, total + |stream[0].data|, maximum))
  }

  predicate AllSized(stream: seq<HostFrame>) {
    forall i :: 0 <= i < |stream| ==> stream[i].Chunk? && Sized(stream[i].data)
  }

  /** The running checks amount to: sized chunks, few enough frames, few enough bytes. */
  lemma {:induction false} AdmittedMeaning(stream: seq<HostFrame>, frames: nat, total: nat, maximum: nat)
    requires frames <= MAXIMUM_FRAMES && total <= maximum
    ensures Admitted(stream, frames, total, maximum) <==>
            AllSized(stream) && frames + |stream| <= MAXIMUM_FRAMES && total + |Content(stream)| <= maximum
  {
    if stream != [] && stream[0].Chunk? && Sized(stream[0].data) {
      var rest := stream[1..];
      assert AllSized(stream) <==> AllSized(rest) by {
        assert forall i :: 0 < i < |stream| ==> stream[i] == rest[i - 1];
      }
      if frames + 1 <= MAXIMUM_FRAMES && total + |stream[0].data| <= maximum {
        AdmittedMeaning(rest, frames + 1, total + |stream[0].data|, maximum);
      }
    }
  }

  datatype ReadResult = Data(bytes: seq<Byte>) | AtEnd | Invalid | Failed

  /** The daemon's io.Reader over the client's frames. */
  class HostTorrentReader {
    const maximum: nat
    const ending: Ending
    var stream: seq<HostFrame>
    var pending: seq<Byte>
    var total: nat
    var frames: nat
    var complete: bool

    ghost predicate Valid()
      reads this
    {
      complete ==> stream == [] && ending.Eof?
    }

    /** Everything still to be delivered. */
    ghost function Rest(): seq<Byte>
      reads this
    {
      pending + Content(stream)
    }

    /** Whether every frame still to come will pass. */
    ghost predicate Good()
      reads this
    {
      Admitted(stream, frames, total, maximum)
    }

    constructor (stream: seq<HostFrame>, ending: Ending, maximum: nat)
      ensures Valid() && this.ending == ending && this.maximum == maximum && this.stream == stream
      ensures Rest() == Content(stream) && (Good() <==> Admitted(stream, 0, 0, maximum))
    {
      this.stream, this.ending, this.maximum := stream, ending, maximum;
      pending, total, frames, complete := [], 0, 0, false;
    }

    /** The frame loop of Read: afterwards there are pending bytes, or the read ends here. */
    method Refill() returns (r: ReadResult)
      requires Valid() && pending == []
      modifies this
      ensures Valid()
      ensures r.Data? ==> pending != [] && Rest() == old(Rest()) && (Good() <==> old(Good()))
      ensures r.Data? ==> |stream| < |old(stream)|
      ensures r.AtEnd? ==> old(stream) == stream == [] && pending == [] && ending.Eof? && Good() && complete
      ensures r.Invalid? ==> !old(Good())
      ensures r.Failed? ==> ending.Broken?
    {
      if complete {
        return AtEnd;
      }
      if stream == [] {
        if ending.Broken? {
          return Failed;
        }
        complete := true;
        return AtEnd;
      }
      var frame := stream[0];
      stream, frames := stream[1..], frames + 1;
      if !frame.Chunk? || |frame.data| == 0 || |frame.data| > CHUNK || frames > MAXIMUM_FRAMES
         || total + |frame.data| > maximum {
        return Invalid;
      }
      pending, total := frame.data, total + |frame.data|;
      return Data([]);
    }

    /** Either a nonempty piece of what is left, in order, or the true reason why there is none. */
    method Read(len: nat) returns (r: ReadResult)
      requires Valid() && len > 0
      modifies this
      ensures Valid()
      ensures r.Data? ==> 0 < |r.bytes| <= len && old(Rest()) == r.bytes + Rest() && (Good() <==> old(Good()))
      ensures r.AtEnd? ==> old(Rest()) == Rest() == [] && stream == [] && ending.Eof? && complete
      ensures r.AtEnd? ==> Good() && old(Good())
      ensures r.Invalid? ==> !old(Good())
      ensures r.Failed? ==> ending.Broken?
    {
      if pending == [] {
        r := Refill();
        if !r.Data? {
          return;
        }
      }
      var n := if len < |pending| then len else |pending|;
      r := Data(pending[..n]);
      pending := pending[n..];
      assert old(Rest()) == r.bytes + pending + Content(stream);
    }
  }

  datatype Fill = Full | Partial | Nothing | Broke

  /** io.ReadFull: what is left, up to `size` bytes, however the reader splits it. */
  method ReadFull(reader: HostTorrentReader, size: nat) returns (bytes: seq<Byte>, fill: Fill)
    requires reader.Valid() && size > 0
    modifies reader
    ensures reader.Valid()
    ensures fill == Full ==> |bytes| == size
    ensures fill == Partial ==> 0 < |bytes| < size
    ensures fill == Nothing ==> bytes == []
    ensures fill != Broke ==> old(reader.Rest()) == bytes + reader.Rest() && (reader.Good() <==> old(reader.Good()))
    ensures fill == Partial || fill == Nothing ==>
              reader.Rest() == [] && reader.stream == [] && reader.ending.Eof? && reader.Good()
    ensures fill == Broke ==> !old(reader.Good()) || reader.ending.Broken?
  {
    bytes := [];
    ghost var whole := reader.Rest();
    assert whole == bytes + reader.Rest();
    while |bytes| < size
      invariant reader.Valid() && |bytes| <= size
      invariant whole == bytes + reader.Rest() && (reader.Good() <==> old(reader.Good()))
      decreases size - |bytes|
    {
      var r := reader.Read(size - |bytes|);
      match r {
        case Data(piece) =>
          bytes := bytes + piece;
        case AtEnd =>
          return bytes, if bytes == [] then Nothing else Partial;
        case Invalid =>
          return bytes, Broke;
        case Failed =>
          return bytes, Broke;
      }
    }
    fill := Full;
  }

  // ----- guest frames

  datatype GuestFrame = GuestFrame(kind: Option<Kind>, chunk: seq<Byte>, final: bool)

  function Raw(frames: seq<GuestFrame>): seq<Byte> {
    if frames == [] then [] else Raw(frames[..|frames| - 1]) + frames[|frames| - 1].chunk
  }

  /** What the guest demands of a whole stream. */
  predicate Accepts(frames: seq<GuestFrame>, kind: Kind) {
    && 0 < |frames| <= MAXIMUM_FRAMES
    && (forall i :: 0 <= i < |frames| ==>
          frames[i].kind == Some(kind) && Sized(frames[i].chunk) && (frames[i].final <==> i == |frames| - 1))
    && |Raw(frames)| <= Maximum(kind)
  }

  lemma RawAppend(frames: seq<GuestFrame>, frame: GuestFrame)
    ensures Raw(frames + [frame]) == Raw(frames) + frame.chunk
  {
    assert (frames + [frame])[..|frames|] == frames;
  }

  lemma {:induction false} RawGrows(frames: seq<GuestFrame>, i: nat)
    requires i <= |frames|
    ensures |Raw(frames[..i])| <= |Raw(frames)|
    decreases |frames| - i
  {
    if i < |frames| {
      assert frames[..i + 1][..i] == frames[..i];
      RawGrows(frames, i + 1);
    } else {
      assert frames[..i] == frames;
    }
  }

  datatype Received = Received(kind: Kind, raw: seq<Byte>) | Refused

  /** One received frame, given how many were accepted before it and what they held. */
  predicate FrameFits(frame: GuestFrame, frames: nat, finalSeen: bool, kind: Option<Kind>, size: nat) {
    && frames + 1 <= MAXIMUM_FRAMES && !finalSeen
    && frame.kind.Some? && Sized(frame.chunk) && (kind == None || kind == frame.kind)
    && size + |frame.chunk| <= Maximum(frame.kind.value)
  }

  /** The guest's state after it has taken the first `i` frames. */
  ghost predicate Taken(frames: seq<GuestFrame>, i: nat, raw: seq<Byte>, kind: Option<Kind>, finalSeen: bool) {
    && i <= |frames| && i <= MAXIMUM_FRAMES && raw == Raw(frames[..i])
    && (kind.Some? <==> i > 0) && (kind.Some? ==> |raw| <= Maximum(kind.value))
    && (finalSeen <==> i > 0 && frames[i - 1].final)
    && forall j :: 0 <= j < i ==> frames[j].kind == kind && Sized(frames[j].chunk) && (frames[j].final ==> j == i - 1)
  }

  lemma TakeOne(frames: seq<GuestFrame>, i: nat, raw: seq<Byte>, kind: Option<Kind>, finalSeen: bool)
    requires Taken(frames, i, raw, kind, finalSeen) && i < |frames| && FrameFits(frames[i], i, finalSeen, kind, |raw|)
    ensures Taken(frames, i + 1, raw + frames[i].chunk, frames[i].kind, frames[i].final)
  {
    assert frames[..i + 1] == frames[..i] + [frames[i]];
    RawAppend(frames[..i], frames[i]);
  }

  /** A frame that does not fit belongs to no acceptable stream. */
  lemma Misfit(frames: seq<GuestFrame>, i: nat, raw: seq<Byte>, kind: Option<Kind>, finalSeen: bool, any: Kind)
    requires Taken(frames, i, raw, kind, finalSeen) && i < |frames| && !FrameFits(frames[i], i, finalSeen, kind, |raw|)
    ensures !Accepts(frames, any)
  {
    assert frames[..i + 1] == frames[..i] + [frames[i]];
    RawAppend(frames[..i], frames[i]);
    RawGrows(frames, i + 1);
    assert i > 0 ==> frames[i - 1].kind == kind;
  }

  lemma TakenAll(frames: seq<GuestFrame>, raw: seq<Byte>, kind: Option<Kind>, finalSeen: bool)
    requires Taken(frames, |frames|, raw, kind, finalSeen)
    ensures raw == Raw(frames) && (finalSeen ==> kind.Some? && raw != [] && Accepts(frames, kind.value))
    ensures !finalSeen ==> forall any :: !Accepts(frames, any)
  {
    assert frames[..|frames|] == frames;
    if finalSeen {
      assert Raw(frames) == Raw(frames[..|frames| - 1]) + frames[|frames| - 1].chunk;
      assert Sized(frames[|frames| - 1].chunk);
    }
  }

  /** The guest receives exactly the streams it should, and then exactly their bytes. */
  method AddTorrent(frames: seq<GuestFrame>, ending: Ending) returns (r: Received)
    ensures r.Received? <==> ending.Eof? && exists kind :: Accepts(frames, kind)
    ensures r.Received? ==> Accepts(frames, r.kind) && r.raw == Raw(frames)
  {
    var raw: seq<Byte>, kind: Option<Kind>, finalSeen := [], None, false;
    var i := 0;
    while i < |frames|
      invariant Taken(frames, i, raw, kind, finalSeen)
    {
      if !FrameFits(frames[i], i, finalSeen, kind, |raw|) {
        forall any ensures !Accepts(frames, any) {
          Misfit(frames, i, raw, kind, finalSeen, any);
        }
        return Refused;
      }
      TakeOne(frames, i, raw, kind, finalSeen);
      raw, kind, finalSeen := raw + frames[i].chunk, frames[i].kind, frames[i].final;
      i := i + 1;
    }
    TakenAll(frames, raw, kind, finalSeen);
    if ending.Broken? || !finalSeen || |raw| == 0 {
      return Refused;
    }
    return Received(kind.value, raw);
  }

  /** A stream cut short anywhere is never taken for the whole torrent. */
  lemma CutShortIsRefused(frames: seq<GuestFrame>, k: nat, kind: Kind, other: Kind)
    requires Accepts(frames, kind) && k < |frames|
    ensures !Accepts(frames[..k], other)
  {
    if k > 0 {
      assert frames[..k][k - 1] == frames[k - 1];
    }
  }

  // ----- the relay

  predicate NoneFinal(frames: seq<GuestFrame>) {
    forall i :: 0 <= i < |frames| ==> !frames[i].final
  }

  /** Frames under way: everything so far was sent in full chunks, none of them final. */
  ghost predicate UnderWay(frames: seq<GuestFrame>, kind: Kind) {
    && (forall i :: 0 <= i < |frames| ==>
          frames[i].kind == Some(kind) && Sized(frames[i].chunk))
    && NoneFinal(frames) && |Raw(frames)| == CHUNK * |frames|
  }

  /** The relay between two reads: what was sent, the chunk held back, and what is still to be read. */
  ghost predicate Relaying(whole: seq<Byte>, frames: seq<GuestFrame>, current: seq<Byte>, rest: seq<Byte>, kind: Kind) {
    && whole == Raw(frames) + (current + rest)
    && Sized(current) && (|current| < CHUNK ==> rest == [])
    && |Raw(frames)| + |current| <= Maximum(kind)
    && UnderWay(frames, kind)
  }

  /** Sending the chunk held back, because another one follows it. */
  lemma RelayNext(whole: seq<Byte>, frames: seq<GuestFrame>, current: seq<Byte>, next: seq<Byte>, rest: seq<Byte>,
                  kind: Kind)
    requires Relaying(whole, frames, current, next + rest, kind)
    requires Sized(next) && (|next| < CHUNK ==> rest == [])
    requires |Raw(frames)| + |current| + |next| <= Maximum(kind)
    ensures Relaying(whole, frames + [GuestFrame(Some(kind), current, false)], next, rest, kind)
  {
    RawAppend(frames, GuestFrame(Some(kind), current, false));
    assert Raw(frames) + (current + (next + rest)) == (Raw(frames) + current) + (next + rest);
  }

  /** Closing the stream with the chunk held back, because nothing follows it. */
  lemma RelayFinal(whole: seq<Byte>, frames: seq<GuestFrame>, current: seq<Byte>, kind: Kind)
    requires Relaying(whole, frames, current, [], kind)
    ensures var sent := frames + [GuestFrame(Some(kind), current, true)];
      Accepts(sent, kind) && Raw(sent) == whole
  {
    RawAppend(frames, GuestFrame(Some(kind), current, true));
    assert current + [] == current;
  }

  /** The look-ahead loop, entered with the first chunk in hand. */
  method RelayChunks(kind: Kind, reader: HostTorrentReader, first: seq<Byte>, ghost whole: seq<Byte>)
    returns (ok: bool, frames: seq<GuestFrame>)
    requires reader.Valid() && Relaying(whole, [], first, reader.Rest(), kind)
    modifies reader
    ensures ok <==> old(reader.Good()) && reader.ending.Eof? && |whole| <= Maximum(kind)
    ensures ok ==> Accepts(frames, kind) && Raw(frames) == whole
    ensures !ok ==> NoneFinal(frames)
  {
    var maximum, total := Maximum(kind), |first|;
    var current := first;
    frames := [];
    while true
      invariant reader.Valid() && (reader.Good() <==> old(reader.Good()))
      invariant Relaying(whole, frames, current, reader.Rest(), kind)
      invariant total == |Raw(frames)| + |current|
      decreases |reader.Rest()|
    {
      ghost var rest := reader.Rest();
      var next, more := ReadFull(reader, CHUNK);
      if more == Broke || |next| > maximum - total {
        return false, frames;
      }
      if more == Nothing {
        assert rest == [];
        RelayFinal(whole, frames, current, kind);
        return true, frames + [GuestFrame(Some(kind), current, true)];
      }
      RelayNext(whole, frames, current, next, reader.Rest(), kind);
      RawAppend(frames, GuestFrame(Some(kind), current, false));
      total := total + |next|;
      frames, current := frames + [GuestFrame(Some(kind), current, false)], next;
    }
  }

  /** The relay: succeeds exactly on good, complete, nonempty input, and its frames are what the guest accepts. */
  method SendTorrentInput(kind: Kind, reader: HostTorrentReader) returns (ok: bool, frames: seq<GuestFrame>)
    requires reader.Valid()
    modifies reader
    ensures ok <==> old(reader.Good()) && reader.ending.Eof? && 0 < |old(reader.Rest())| <= Maximum(kind)
    ensures ok ==> Accepts(frames, kind) && Raw(frames) == old(reader.Rest())
    ensures !ok ==> NoneFinal(frames)
  {
    ghost var whole := reader.Rest();
    var current, fill := ReadFull(reader, CHUNK);
    if fill == Broke || |current| == 0 || |current| > Maximum(kind) {
      return false, [];
    }
    assert whole == [] + (current + reader.Rest());
    ok, frames := RelayChunks(kind, reader, current, whole);
  }

  /** From the daemon's stream to the guest: the guest gets all of it or refuses, whatever it sees of a failed relay. */
  method Relay(kind: Kind, reader: HostTorrentReader, lost: Ending) returns (r: Received)
    requires reader.Valid()
    modifies reader
    ensures r == if old(reader.Good()) && reader.ending.Eof? && 0 < |old(reader.Rest())| <= Maximum(kind)
                 then Received(kind, old(reader.Rest())) else Refused
  {
    var ok, frames := SendTorrentInput(kind, reader);
    r := AddTorrent(frames, if ok then Eof else lost);
    if r.Received? {
      assert frames[|frames| - 1].final;
      assert frames[0].kind == Some(r.kind);
    }
  }

  // ----- the client

  /** One host frame per read of at most 16 KiB. */
  function ClientFrames(r: Readers.Reader): seq<HostFrame>
    requires r.Valid()
    decreases |r.data| - r.pos
  {
    var read := Readers.Read(r, CHUNK);
    FrameOf(read.1) + if read.2 then [] else ClientFrames(read.0)
  }

  function FrameOf(bytes: seq<Byte>): seq<HostFrame> {
    if bytes == [] then [] else [Chunk(bytes)]
  }

  lemma {:induction false} ClientFramesCarry(r: Readers.Reader)
    requires r.Valid()
    ensures AllSized(ClientFrames(r)) && Content(ClientFrames(r)) == r.Rest()
    decreases |r.data| - r.pos
  {
    var (next, bytes, eof) := Readers.Read(r, CHUNK);
    if bytes == [] {
    } else {
      var rest := if eof then [] else ClientFrames(next);
      if !eof {
        ClientFramesCarry(next);
      }
      assert ([Chunk(bytes)] + rest)[1..] == rest;
    }
  }

  /** What is still to be sent, unless the end was reported. */
  function Unsent(r: Readers.Reader, eof: bool): seq<HostFrame>
    requires r.Valid()
  {
    if eof then [] else ClientFrames(r)
  }

  lemma SendOne(r: Readers.Reader, frames: seq<HostFrame>)
    requires r.Valid()
    ensures var (next, bytes, end) := Readers.Read(r, CHUNK);
      frames + ClientFrames(r) == frames + FrameOf(bytes) + Unsent(next, end)
  {
    var (next, bytes, end) := Readers.Read(r, CHUNK);
    assert ClientFrames(r) == FrameOf(bytes) + Unsent(next, end);
  }

  method SendFrames(reader: Readers.Reader) returns (frames: seq<HostFrame>)
    requires reader.Valid()
    ensures frames == ClientFrames(reader)
  {
    var r, eof := reader, false;
    frames := [];
    while !eof
      invariant r.Valid()
      invariant ClientFrames(reader) == frames + Unsent(r, eof)
      decreases !eof, |r.data| - r.pos
    {
      var (next, bytes, end) := Readers.Read(r, CHUNK);
      SendOne(r, frames);
      frames := frames + FrameOf(bytes);
      r, eof := next, end;
    }
  }

  /** Client to guest: exactly the input, exactly when it fits its kind and took at most 1024 reads. */
  method Submit(kind: Kind, source: Readers.Reader, lost: Ending) returns (r: Received)
    requires source.Valid()
    ensures r == if 0 < |source.Rest()| <= Maximum(kind) && |ClientFrames(source)| <= MAXIMUM_FRAMES
                 then Received(kind, source.Rest()) else Refused
  {
    var frames := SendFrames(source);
    ClientFramesCarry(source);
    AdmittedMeaning(frames, 0, 0, Maximum(kind));
    var reader := new HostTorrentReader(frames, Eof, Maximum(kind));
    r := Relay(kind, reader, lost);
  }

  /** With reads that fill the buffer, every input within the byte limit takes few enough frames. */
  lemma {:induction false} FullReadsFit(r: Readers.Reader)
    requires r.Valid() && forall pos :: r.split(pos) >= CHUNK
    ensures CHUNK * |ClientFrames(r)| < |r.Rest()| + CHUNK
    ensures |r.Rest()| <= MAXIMUM_METAINFO ==> |ClientFrames(r)| <= MAXIMUM_FRAMES
    decreases |r.data| - r.pos
  {
    var (next, bytes, eof) := Readers.Read(r, CHUNK);
    if !eof {
      FullReadsFit(next);
    }
  }

  /** With reads of one byte the frame limit decides: one frame per byte. */
  lemma {:induction false} OneByteReads(r: Readers.Reader)
    requires r.Valid() && forall pos :: r.split(pos) == 1
    ensures |ClientFrames(r)| == |r.Rest()|
    decreases |r.data| - r.pos
  {
    var (next, bytes, eof) := Readers.Read(r, CHUNK);
    if !eof {
      OneByteReads(next);
    }
  }

  /** So an input well within its byte limit can be refused for how it was read. */
  lemma ShortReadsCanBeRefused(r: Readers.Reader)
    requires r == Readers.Reader(seq(1025, _ => 0), 0, _ => 1, false)
    ensures |r.Rest()| <= Maximum(Magnet) && |ClientFrames(r)| > MAXIMUM_FRAMES
  {
    OneByteReads(r);
  }
}
