/**
  The exporter guest: the fixed-policy adapter that owns the LUKS mapper, the mount and
  the one file writer, and the RPC state machine over it.  Every external command may
  fail; a failed open or mount has no effect, a failed write may leave some bytes.
 */
module Exporter {
  import opened Bytes
  import opened VerifiedTransfer

  // ----- the adapter

  /** `data` is what went through the writer's hash. */
  datatype Writer = Writer(expectedSize: nat, data: seq<Byte>, fileOpen: bool, closed: bool)

  /** `partial` and `final` are the two fixed files on the mounted filesystem. */
  datatype Adapter = Adapter(
    device: bool, mapperOpen: bool, mounted: bool, writer: Option<Writer>,
    partial: Option<seq<Byte>>, final: Option<seq<Byte>>)

  datatype PrepareCommands = PrepareCommands(format: bool, open: bool, mkfs: bool, mount: bool, ext4: bool)
  datatype BeginCommands = BeginCommands(removePartial: bool, removeFinal: bool, create: bool)
  datatype CommitCommands = CommitCommands(sync: bool, close: bool, rename: bool, directory: bool)
  datatype CleanupCommands = CleanupCommands(remove: bool, umount: bool, close: bool, inTime: bool)

  function Prepare(a: Adapter, c: PrepareCommands): (Adapter, bool) {
    if !a.device || a.mounted || a.mapperOpen || !c.format || !c.open then (a, false) else
    var a1 := a.(mapperOpen := true);
    if !c.mkfs then (a1, false) else
    var a2 := a1.(partial := None, final := None);
    if !c.mount then (a2, false) else (a2.(mounted := true), c.ext4)
  }

  function BeginWrite(a: Adapter, size: nat, c: BeginCommands): (Adapter, bool) {
    if !a.mounted || a.writer.Some? || !c.removePartial then (a, false) else
    var a1 := a.(partial := None);
    if !c.removeFinal then (a1, false) else
    var a2 := a1.(final := None);
    if !c.create then (a2, false)
    else (a2.(partial := Some([]), writer := Some(Writer(size, [], true, false))), true)
  }

  /** `fault` is None for a complete write, otherwise how much of the data reached the file. */
  function WriteChunk(a: Adapter, data: seq<Byte>, fault: Option<nat>): (Adapter, bool) {
    if a.writer.None? || a.partial.None? then (a, false) else
    var w := a.writer.value;
    if w.closed || !w.fileOpen || |w.data| + |data| > w.expectedSize then (a, false) else
    if fault.Some? then
      var n := if fault.value < |data| then fault.value else |data|;
      (a.(partial := Some(a.partial.value + data[..n])), false)
    else (a.(partial := Some(a.partial.value + data), writer := Some(w.(data := w.data + data))), true)
  }

  function Commit(H: Hash, a: Adapter, d: Descriptor, c: CommitCommands): (Adapter, bool) {
    if a.writer.None? then (a, false) else
    var w := a.writer.value;
    if w.closed || d.size != w.expectedSize || |w.data| != d.size || H(w.data) != d.digest then (a, false) else
    if !c.sync || !c.close then (a, false) else
    var a1 := a.(writer := Some(w.(fileOpen := false)));
    if !c.rename || a.partial.None? then (a1, false) else
    var a2 := a1.(final := a.partial, partial := None);
    if !c.directory then (a2, false) else (a2.(writer := None), true)
  }

  /** Abort of a writer, whether or not the adapter still refers to it. */
  function Abort(a: Adapter, remove: bool): (Adapter, bool) {
    (a.(writer := None, partial := if a.mounted && remove then None else a.partial), remove || !a.mounted)
  }

  function Finalize(a: Adapter, umount: bool, close: bool): (Adapter, bool) {
    if !a.mounted || !a.mapperOpen || a.writer.Some? || !umount then (a, false) else
    (a.(mounted := false, mapperOpen := !close), close)
  }

  function Cleanup(a: Adapter, c: CleanupCommands): (Adapter, bool) {
    var (a1, aborted) := if a.writer.Some? then Abort(a, c.remove) else (a, true);
    var a2 := if a1.mounted && c.umount then a1.(mounted := false) else a1;
    var a3 := if a2.mapperOpen && !a2.mounted && c.close then a2.(mapperOpen := false) else a2;
    (a3, aborted && !a3.mounted && (!a2.mounted ==> !a3.mapperOpen) && c.inTime)
  }

  /** The file behind a mount, the mount behind a mapper. */
  predicate Nested(a: Adapter) {
    && (a.writer.Some? ==> a.mounted)
    && (a.mounted ==> a.mapperOpen)
    && (a.mapperOpen ==> a.device)
  }

  predicate Nothing(a: Adapter) {
    a.writer.None? && !a.mounted && !a.mapperOpen
  }

  /** The open partial file holds exactly what was hashed. */
  predicate Faithful(a: Adapter) {
    a.writer.Some? && a.writer.value.fileOpen && !a.writer.value.closed && a.partial == Some(a.writer.value.data)
  }

  class FixedExporterAdapter {
    var device: bool
    var mapperOpen: bool
    var mounted: bool
    var writer: Option<Writer>
    var partial: Option<seq<Byte>>
    var final: Option<seq<Byte>>

    ghost function View(): Adapter
      reads this
    {
      Adapter(device, mapperOpen, mounted, writer, partial, final)
    }

    constructor ()
      ensures View() == Adapter(false, false, false, None, None, None)
    {
      device, mapperOpen, mounted, writer, partial, final := false, false, false, None, None, None;
    }

    method PrepareDevice(c: PrepareCommands) returns (ok: bool)
      modifies this
      ensures (View(), ok) == Prepare(old(View()), c)
    {
      if !device || mounted || mapperOpen || !c.format || !c.open {
        return false;
      }
      mapperOpen := true;
      if !c.mkfs {
        return false;
      }
      partial, final := None, None;
      if !c.mount {
        return false;
      }
      mounted := true;
      return c.ext4;
    }

    method Begin(size: nat, c: BeginCommands) returns (ok: bool)
      modifies this
      ensures (View(), ok) == BeginWrite(old(View()), size, c)
    {
      if !mounted || writer.Some? || !c.removePartial {
        return false;
      }
      partial := None;
      if !c.removeFinal {
        return false;
      }
      final := None;
      if !c.create {
        return false;
      }
      partial, writer := Some([]), Some(Writer(size, [], true, false));
      return true;
    }

    method Write(data: seq<Byte>, fault: Option<nat>) returns (ok: bool)
      modifies this`writer, this`partial
      ensures (View(), ok) == WriteChunk(old(View()), data, fault)
    {
      if writer.None? || partial.None? {
        return false;
      }
      var w := writer.value;
      if w.closed || !w.fileOpen || |w.data| > w.expectedSize || |data| > w.expectedSize - |w.data| {
        return false;
      }
      if fault.Some? {
        var n := if fault.value < |data| then fault.value else |data|;
        partial := Some(partial.value + data[..n]);
        return false;
      }
      partial := Some(partial.value + data);
      writer := Some(w.(data := w.data + data));
      return true;
    }

    method CommitFile(H: Hash, d: Descriptor, c: CommitCommands) returns (ok: bool)
      modifies this
      ensures (View(), ok) == Commit(H, old(View()), d, c)
    {
      if writer.None? {
        return false;
      }
      var w := writer.value;
      if w.closed || d.size != w.expectedSize || |w.data| != d.size || H(w.data) != d.digest {
        return false;
      }
      if !c.sync || !c.close {
        return false;
      }
      writer := Some(w.(fileOpen := false));
      if !c.rename || partial.None? {
        return false;
      }
      final, partial := partial, None;
      if !c.directory {
        return false;
      }
      writer := None;
      return true;
    }

    method AbortWriter(remove: bool) returns (ok: bool)
      modifies this`writer, this`partial
      ensures (View(), ok) == Abort(old(View()), remove)
    {
      if mounted && remove {
        partial := None;
      }
      writer := None;
      return remove || !mounted;
    }

    /** Hash of the final file, read back in buffers; None when it cannot be read to its end. */
    method Reread(H: Hash, readable: bool) returns (digest: Option<Digest>)
      ensures digest == if mounted && final.Some? && readable then Some(H(final.value)) else None
    {
      if !mounted || final.None? || !readable {
        return None;
      }
      var hashed: seq<Byte> := [];
      while |hashed| < |final.value|
        invariant hashed <= final.value
        decreases |final.value| - |hashed|
      {
        var n := |final.value| - |hashed|;
        n := if n < MAX_CHUNK then n else MAX_CHUNK;
        hashed := hashed + final.value[|hashed|..|hashed| + n];
      }
      assert hashed == final.value;
      return Some(H(hashed));
    }

    method FinalizeDevice(umount: bool, close: bool) returns (ok: bool)
      modifies this`mounted, this`mapperOpen
      ensures (View(), ok) == Finalize(old(View()), umount, close)
    {
      if !mounted || !mapperOpen || writer.Some? || !umount {
        return false;
      }
      mounted := false;
      if !close {
        return false;
      }
      mapperOpen := false;
      return true;
    }

    method CleanupDevice(c: CleanupCommands) returns (ok: bool)
      modifies this
      ensures (View(), ok) == Cleanup(old(View()), c)
    {
      ok := true;
      if writer.Some? {
        ok := AbortWriter(c.remove);
      }
      if mounted {
        if c.umount {
          mounted := false;
        } else {
          ok := false;
        }
      }
      if mapperOpen && !mounted {
        if c.close {
          mapperOpen := false;
        } else {
          ok := false;
        }
      }
      ok := ok && c.inTime;
    }
  }

  // ----- the RPC state machine

  datatype State = Boot | Inspected | Prepared | Written | Verified | Finalized | Incomplete | Closed

  datatype Receipt = Receipt(transfer: string, digest: Digest, reread: Option<Digest>)

  datatype Service = Service(
    adapter: Adapter, state: State, session: string, expectation: nat, receipt: Option<Receipt>, maxFileBytes: nat)

  function Fresh(maxFileBytes: nat): Service {
    Service(Adapter(false, false, false, None, None, None), Boot, "", 0, None, maxFileBytes)
  }

  /** A received frame together with the fault of the write it causes. */
  datatype Item = Item(frame: Frame, fault: Option<nat>)

  datatype Rpc =
    | InspectUsb(session: string, expectation: nat, found: bool, evidence: bool)
    | PrepareUsb(session: string, expectation: nat, passphrase: seq<seq<Byte>>, prepare: PrepareCommands)
    | WriteFile(session: string, transfer: string, tag: Option<Tag>, d: Descriptor, begin: BeginCommands,
                items: seq<Item>, commit: CommitCommands, lateRemove: bool)
    | VerifyFile(session: string, transfer: string, readable: bool)
    | FinalizeUsb(session: string, expectation: nat, umount: bool, close: bool, inTime: bool)
    | CloseService

  predicate AlphaNumeric(c: char) {
    'a' <= c <= 'z' || 'A' <= c <= 'Z' || '0' <= c <= '9'
  }

  /** The pattern of transfer identifiers. */
  predicate ValidTransferId(id: string) {
    && 8 <= |id| <= 128 && AlphaNumeric(id[0])
    && forall i :: 0 <= i < |id| ==> AlphaNumeric(id[i]) || id[i] == '.' || id[i] == '_' || id[i] == '-'
  }

  /** The first frame opens a write: a begin frame (`tag` is None for any other) with a valid, nonempty descriptor. */
  predicate Opens(transfer: string, tag: Option<Tag>, d: Descriptor, maximum: nat) {
    && tag.Some? && ValidTransferId(transfer)
    && ValidHeader(tag.value, d, maximum) && d.size != 0
  }

  function Fail(s: Service, c: CleanupCommands): Service {
    s.(adapter := Cleanup(s.adapter, c).0, state := Incomplete)
  }

  /** The receive loop of WriteVerifiedFile: the bytes accepted up to a valid end frame, or None. */
  function Absorb(H: Hash, a: Adapter, d: Descriptor, k: nat, got: seq<Byte>, items: seq<Item>):
    (Adapter, Option<seq<Byte>>)
    decreases |items|
  {
    if items == [] then (a, None) else
    match items[0].frame
    case Chunk(sequence, data) =>
      if sequence != k || |data| == 0 || |data| > MAX_CHUNK || |got| + |data| > d.size then (a, None) else
      var (a', ok) := WriteChunk(a, data, items[0].fault);
      if !ok then (a', None) else Absorb(H, a', d, k + 1, got + data, items[1..])
    case End(total, digest) =>
      (a, if total == d.size && digest == d.digest && |got| == d.size && H(got) == d.digest then Some(got) else None)
    case Other => (a, None)
  }

  /** The receive loop and, after a valid end frame, the commit. */
  function Store(H: Hash, a: Adapter, d: Descriptor, items: seq<Item>, commit: CommitCommands): (Adapter, bool) {
    var (a', got) := Absorb(H, a, d, 0, [], items);
    if got.Some? then Commit(H, a', d, commit) else (a', false)
  }

  function Write(H: Hash, s: Service, r: Rpc, c: CleanupCommands): (Service, bool)
    requires r.WriteFile?
  {
    if s.state != Prepared || r.session != s.session || !Opens(r.transfer, r.tag, r.d, s.maxFileBytes)
    then (s, false) else
    var (a1, begun) := BeginWrite(s.adapter, r.d.size, r.begin);
    if !begun then (Fail(s.(adapter := a1), c), false) else
    var (a2, done) := Store(H, a1, r.d, r.items, r.commit);
    if !done then
      var s' := Fail(s.(adapter := a2), c);
      (s'.(adapter := Abort(s'.adapter, r.lateRemove).0), false)
    else (s.(adapter := a2, receipt := Some(Receipt(r.transfer, r.d.digest, None)), state := Written), true)
  }

  function Step(H: Hash, s: Service, r: Rpc, c: CleanupCommands): (Service, bool) {
    match r
    case InspectUsb(session, expectation, found, evidence) =>
      if s.state != Boot then (s, false) else
      var s1 := s.(adapter := s.adapter.(device := s.adapter.device || found));
      if !found || !evidence then (Fail(s1, c), false)
      else (s1.(session := session, expectation := expectation, state := Inspected), true)
    case PrepareUsb(session, expectation, passphrase, prepare) =>
      if s.state != Inspected || session != s.session || expectation != s.expectation || !ValidPassphrase(passphrase)
      then (s, false) else
      var (a, ok) := Prepare(s.adapter, prepare);
      if !ok then (Fail(s.(adapter := a), c), false) else (s.(adapter := a, state := Prepared), true)
    case WriteFile(_, _, _, _, _, _, _, _) => Write(H, s, r, c)
    case VerifyFile(session, transfer, readable) =>
      if s.state != Written || s.receipt.None? || transfer != s.receipt.value.transfer || session != s.session
      then (s, false) else
      if s.adapter.mounted && s.adapter.final.Some? && readable && H(s.adapter.final.value) == s.receipt.value.digest
      then (s.(receipt := Some(s.receipt.value.(reread := Some(H(s.adapter.final.value)))), state := Verified), true)
      else (Fail(s, c), false)
    case FinalizeUsb(session, expectation, umount, close, inTime) =>
      if s.state != Verified || session != s.session || expectation != s.expectation then (s, false) else
      var (a, ok) := Finalize(s.adapter, umount, close);
      if !ok || !inTime then (Fail(s.(adapter := a), c), false) else (s.(adapter := a, state := Finalized), true)
    case CloseService =>
      if s.state == Closed then (s, true) else
      var (a, ok) := Cleanup(s.adapter, c);
      (s.(adapter := a, state := if ok then Closed else Incomplete), ok)
  }

  // ----- the passphrase stream

  const MAX_PASSPHRASE: nat := 1024
  const MAX_SECRET_CHUNK: nat := 256
  const MAX_SECRET_FRAMES: nat := 4

  predicate ValidPassphrase(frames: seq<seq<Byte>>) {
    && |frames| <= MAX_SECRET_FRAMES
    && (forall f <- frames :: 0 < |f| <= MAX_SECRET_CHUNK)
    && 8 <= |Flatten(frames)|
  }

  lemma {:induction false} FlattenBound(frames: seq<seq<Byte>>)
    requires forall i :: 0 <= i < |frames| ==> |frames[i]| <= MAX_SECRET_CHUNK
    ensures |Flatten(frames)| <= MAX_SECRET_CHUNK * |frames|
  {
    if frames == [] {
    } else {
      FlattenBound(frames[1..]);
    }
  }

  /** Accepted exactly for valid streams; the total bound of 1024 bytes never decides. */
  method AssemblePassphrase(frames: seq<seq<Byte>>) returns (r: Option<seq<Byte>>)
    ensures r == if ValidPassphrase(frames) then Some(Flatten(frames)) else None
  {
    var buffer: seq<Byte> := [];
    for i := 0 to |frames|
      invariant i <= MAX_SECRET_FRAMES
      invariant forall f <- frames[..i] :: 0 < |f| <= MAX_SECRET_CHUNK
      invariant buffer == Flatten(frames[..i])
    {
      assert frames[..i + 1] == frames[..i] + [frames[i]];
      FlattenAppend(frames[..i], frames[i]);
      FlattenBound(frames[..i]);
      if |frames[i]| == 0 || |frames[i]| > MAX_SECRET_CHUNK || i + 1 > MAX_SECRET_FRAMES ||
         |frames[i]| > MAX_PASSPHRASE - |buffer| {
        return None;
      }
      buffer := buffer + frames[i];
    }
    assert frames[..|frames|] == frames;
    if |buffer| < 8 {
      return None;
    }
    return Some(buffer);
  }

  // ----- the service object

  class ExporterService {
    const adapter: FixedExporterAdapter
    const maxFileBytes: nat
    var state: State
    var session: string
    var expectation: nat
    var receipt: Option<Receipt>

    ghost function View(): Service
      reads this, adapter
    {
      Service(adapter.View(), state, session, expectation, receipt, maxFileBytes)
    }

    constructor (maxFileBytes: nat)
      ensures View() == Fresh(maxFileBytes) && fresh(adapter)
    {
      adapter := new FixedExporterAdapter();
      this.maxFileBytes := maxFileBytes;
      state, session, expectation, receipt := Boot, "", 0, None;
    }

    method FailWith(c: CleanupCommands)
      modifies this`state, adapter
      ensures View() == Fail(old(View()), c)
    {
      var _ := adapter.CleanupDevice(c);
      state := Incomplete;
    }

    method Inspect(r: Rpc, c: CleanupCommands) returns (ok: bool)
      requires r.InspectUsb?
      modifies this, adapter
      ensures (View(), ok) == Step(_ => [], old(View()), r, c)
    {
      if state != Boot {
        return false;
      }
      if r.found {
        adapter.device := true;
      }
      if !r.found || !r.evidence {
        FailWith(c);
        return false;
      }
      session, expectation, state := r.session, r.expectation, Inspected;
      return true;
    }

    method PrepareExactUsb(r: Rpc, c: CleanupCommands) returns (ok: bool)
      requires r.PrepareUsb?
      modifies this, adapter
      ensures (View(), ok) == Step(_ => [], old(View()), r, c)
    {
      if state != Inspected || r.session != session || r.expectation != expectation {
        return false;
      }
      var passphrase := AssemblePassphrase(r.passphrase);
      if passphrase.None? {
        return false;
      }
      ok := adapter.PrepareDevice(r.prepare);
      if !ok {
        FailWith(c);
        return false;
      }
      state := Prepared;
    }

    method ReceiveFrames(H: Hash, d: Descriptor, items: seq<Item>) returns (got: Option<seq<Byte>>)
      modifies adapter
      ensures (adapter.View(), got) == Absorb(H, old(adapter.View()), d, 0, [], items)
    {
      var sequence, i := 0, 0;
      var hashed: seq<Byte> := [];
      assert items[0..] == items;
      while i < |items|
        invariant 0 <= i <= |items|
        invariant Absorb(H, adapter.View(), d, sequence, hashed, items[i..]) ==
                  Absorb(H, old(adapter.View()), d, 0, [], items)
      {
        var frame := items[i].frame;
        assert items[i..][1..] == items[i + 1..];
        if !frame.Chunk? {
          if frame.End? && frame.total == d.size && frame.digest == d.digest && |hashed| == d.size &&
             H(hashed) == d.digest {
            return Some(hashed);
          }
          return None;
        }
        if frame.sequence != sequence || |frame.data| == 0 || |frame.data| > MAX_CHUNK ||
           |hashed| + |frame.data| > d.size {
          return None;
        }
        var ok := adapter.Write(frame.data, items[i].fault);
        if !ok {
          return None;
        }
        hashed := hashed + frame.data;
        sequence := sequence + 1;
        i := i + 1;
      }
      return None;
    }

    method WriteVerifiedFile(H: Hash, r: Rpc, c: CleanupCommands) returns (ok: bool)
      requires r.WriteFile?
      modifies this, adapter
      ensures (View(), ok) == Write(H, old(View()), r, c)
    {
      if state != Prepared || r.session != session || !Opens(r.transfer, r.tag, r.d, maxFileBytes) {
        return false;
      }
      var begun := adapter.Begin(r.d.size, r.begin);
      if !begun {
        FailWith(c);
        return false;
      }
      var got := ReceiveFrames(H, r.d, r.items);
      var committed := false;
      if got.Some? {
        committed := adapter.CommitFile(H, r.d, r.commit);
      }
      if !committed {
        FailWith(c);
        var _ := adapter.AbortWriter(r.lateRemove);
        return false;
      }
      receipt := Some(Receipt(r.transfer, r.d.digest, None));
      state := Written;
      return true;
    }

    method VerifyWrittenFile(H: Hash, r: Rpc, c: CleanupCommands) returns (ok: bool)
      requires r.VerifyFile?
      modifies this, adapter
      ensures (View(), ok) == Step(H, old(View()), r, c)
    {
      if state != Written || receipt.None? || r.transfer != receipt.value.transfer || r.session != session {
        return false;
      }
      var reread := adapter.Reread(H, r.readable);
      if reread != Some(receipt.value.digest) {
        FailWith(c);
        return false;
      }
      receipt := Some(receipt.value.(reread := reread));
      state := Verified;
      return true;
    }

    method FinalizeUsbDevice(r: Rpc, c: CleanupCommands) returns (ok: bool)
      requires r.FinalizeUsb?
      modifies this, adapter
      ensures (View(), ok) == Step(_ => [], old(View()), r, c)
    {
      if state != Verified || r.session != session || r.expectation != expectation {
        return false;
      }
      ok := adapter.FinalizeDevice(r.umount, r.close);
      if !ok || !r.inTime {
        FailWith(c);
        return false;
      }
      state := Finalized;
    }

    method Close(c: CleanupCommands) returns (ok: bool)
      modifies this, adapter
      ensures (View(), ok) == Step(_ => [], old(View()), CloseService, c)
    {
      if state == Closed {
        return true;
      }
      ok := adapter.CleanupDevice(c);
      state := if ok then Closed else Incomplete;
    }
  }

  // ----- which streams are written

  function FramesOf(items: seq<Item>): seq<Frame> {
    seq(|items|, i requires 0 <= i < |items| => items[i].frame)
  }

  /** `Transfers` for a receiver that already took `k` chunks with the bytes `got`. */
  predicate Continues(H: Hash, d: Descriptor, k: nat, got: seq<Byte>, frames: seq<Frame>, n: nat) {
    && n < |frames|
    && (forall i :: 0 <= i < n ==> frames[i].Chunk? && frames[i].sequence == k + i && 0 < |frames[i].data| <= MAX_CHUNK)
    && frames[n] == End(d.size, d.digest)
    && |got + Payload(frames[..n])| == d.size && H(got + Payload(frames[..n])) == d.digest
  }

  predicate NoFault(items: seq<Item>, n: nat) {
    n <= |items| && forall i :: 0 <= i < n ==> items[i].fault.None?
  }

  /** A writer in step with the receive loop. */
  predicate InStep(a: Adapter, d: Descriptor, got: seq<Byte>) {
    Faithful(a) && a.writer.value.expectedSize == d.size && a.writer.value.data == got && |got| <= d.size
  }

  /** Everything but the writer and the partial file. */
  predicate SameHold(a: Adapter, b: Adapter) {
    a.device == b.device && a.mapperOpen == b.mapperOpen && a.mounted == b.mounted && a.final == b.final
  }

  lemma ContinuesTail(H: Hash, d: Descriptor, k: nat, got: seq<Byte>, items: seq<Item>, n: nat)
    requires 0 < n < |items| && items[0].frame.Chunk?
    ensures Continues(H, d, k, got, FramesOf(items), n) <==>
            var f := items[0].frame;
            f.sequence == k && 0 < |f.data| <= MAX_CHUNK &&
            Continues(H, d, k + 1, got + f.data, FramesOf(items[1..]), n - 1)
  {
    var frames, tail := FramesOf(items), FramesOf(items[1..]);
    assert frames[1..] == tail && frames[..n][1..] == tail[..n - 1] && frames[..n][0] == items[0].frame;
    assert got + Payload(frames[..n]) == got + items[0].frame.data + Payload(tail[..n - 1]);
    assert forall i :: 1 <= i < n ==> frames[i] == tail[i - 1];
    assert forall i :: 0 <= i < n - 1 ==> tail[i] == frames[i + 1];
  }

  lemma {:induction false} AbsorbSound(H: Hash, a: Adapter, d: Descriptor, k: nat, got: seq<Byte>, items: seq<Item>)
    returns (n: nat)
    requires InStep(a, d, got) && Absorb(H, a, d, k, got, items).1.Some?
    ensures Continues(H, d, k, got, FramesOf(items), n) && NoFault(items, n)
    ensures var (a', all) := Absorb(H, a, d, k, got, items);
      InStep(a', d, all.value) && all.value == got + Payload(FramesOf(items)[..n])
    decreases |items|
  {
    var f := items[0].frame;
    if f.End? {
      n := 0;
      assert got + Payload(FramesOf(items)[..0]) == got;
    } else {
      n := AbsorbSound(H, WriteChunk(a, f.data, None).0, d, k + 1, got + f.data, items[1..]);
      ContinuesTail(H, d, k, got, items, n + 1);
      assert FramesOf(items)[..n + 1][1..] == FramesOf(items[1..])[..n];
      assert forall i :: 1 <= i < n + 1 ==> items[i] == items[1..][i - 1];
      n := n + 1;
    }
  }

  lemma {:induction false} AbsorbComplete(H: Hash, a: Adapter, d: Descriptor, k: nat, got: seq<Byte>, items: seq<Item>,
                                          n: nat)
    requires InStep(a, d, got) && Continues(H, d, k, got, FramesOf(items), n) && NoFault(items, n)
    ensures Absorb(H, a, d, k, got, items).1.Some?
    decreases |items|
  {
    var frames := FramesOf(items);
    assert frames[n] == items[n].frame;
    if n == 0 {
      assert got + Payload(frames[..0]) == got;
    } else {
      assert frames[0] == items[0].frame;
      ContinuesTail(H, d, k, got, items, n);
      var data := items[0].frame.data;
      AbsorbComplete(H, WriteChunk(a, data, None).0, d, k + 1, got + data, items[1..], n - 1);
    }
  }

  lemma {:induction false} AbsorbHolds(H: Hash, a: Adapter, d: Descriptor, k: nat, got: seq<Byte>, items: seq<Item>)
    ensures SameHold(a, Absorb(H, a, d, k, got, items).0)
    ensures a.writer.Some? ==> Absorb(H, a, d, k, got, items).0.writer.Some?
    decreases |items|
  {
    if items != [] && items[0].frame.Chunk? {
      var data := items[0].frame.data;
      AbsorbHolds(H, WriteChunk(a, data, items[0].fault).0, d, k + 1, got + data, items[1..]);
    }
  }

  predicate BeginsOk(c: BeginCommands) { c.removePartial && c.removeFinal && c.create }
  predicate CommitsOk(c: CommitCommands) { c.sync && c.close && c.rename && c.directory }

  /** The items start with the described content, and no write of it fails. */
  ghost predicate Deliverable(H: Hash, d: Descriptor, items: seq<Item>) {
    exists n: nat :: Transfers(H, d, FramesOf(items), n) && NoFault(items, n)
  }

  /** What the receive loop got is the content that the first `n` frames carry. */
  predicate Received(H: Hash, d: Descriptor, items: seq<Item>, n: nat, a: Adapter, all: seq<Byte>) {
    Transfers(H, d, FramesOf(items), n) && all == Payload(FramesOf(items)[..n]) && InStep(a, d, all)
  }

  /** The receive loop accepts exactly the deliverable streams. */
  lemma AbsorbedExactly(H: Hash, a: Adapter, d: Descriptor, items: seq<Item>)
    requires InStep(a, d, [])
    ensures Absorb(H, a, d, 0, [], items).1.Some? <==> Deliverable(H, d, items)
    ensures var (a', all) := Absorb(H, a, d, 0, [], items);
      all.Some? ==> exists n: nat :: Received(H, d, items, n, a', all.value)
  {
    if Deliverable(H, d, items) {
      var n: nat :| Transfers(H, d, FramesOf(items), n) && NoFault(items, n);
      assert [] + Payload(FramesOf(items)[..n]) == Payload(FramesOf(items)[..n]);
      AbsorbComplete(H, a, d, 0, [], items, n);
    }
    var (a', all) := Absorb(H, a, d, 0, [], items);
    if all.Some? {
      var n := AbsorbSound(H, a, d, 0, [], items);
      assert [] + Payload(FramesOf(items)[..n]) == Payload(FramesOf(items)[..n]);
      assert Received(H, d, items, n, a', all.value);
    }
  }

  /** The stream of a write is the described content and no command fails while it is stored. */
  ghost predicate Writable(H: Hash, r: Rpc)
    requires r.WriteFile?
  {
    BeginsOk(r.begin) && CommitsOk(r.commit) && Deliverable(H, r.d, r.items)
  }

  /** The final file is the content the first `n` frames carry. */
  predicate Stored(H: Hash, d: Descriptor, frames: seq<Frame>, n: nat, a: Adapter) {
    Transfers(H, d, frames, n) && a.final == Some(Payload(frames[..n]))
  }

  /**
    Whatever the frames: written exactly when the first one opens a write and the others are its content, and then the
    final file is that content.
   */
  lemma WrittenExactly(H: Hash, s: Service, r: Rpc, c: CleanupCommands)
    requires Inv(H, s) && r.WriteFile? && s.state == Prepared && r.session == s.session
    ensures Write(H, s, r, c).1 <==> Opens(r.transfer, r.tag, r.d, s.maxFileBytes) && Writable(H, r)
    ensures Write(H, s, r, c).1 ==> exists n: nat :: Stored(H, r.d, FramesOf(r.items), n, Write(H, s, r, c).0.adapter)
    ensures Write(H, s, r, c).0.state ==
            if Write(H, s, r, c).1 then Written
            else if Opens(r.transfer, r.tag, r.d, s.maxFileBytes) then Incomplete else Prepared
  {
    if BeginsOk(r.begin) && Opens(r.transfer, r.tag, r.d, s.maxFileBytes) {
      var a := BeginWrite(s.adapter, r.d.size, r.begin).0;
      AbsorbedExactly(H, a, r.d, r.items);
      var (a', all) := Absorb(H, a, r.d, 0, [], r.items);
      if all.Some? && CommitsOk(r.commit) {
        var n: nat :| Received(H, r.d, r.items, n, a', all.value);
        assert Stored(H, r.d, FramesOf(r.items), n, Write(H, s, r, c).0.adapter);
      }
    }
  }

  function Clean(frames: seq<Frame>): seq<Item> {
    seq(|frames|, i requires 0 <= i < |frames| => Item(frames[i], None))
  }

  /** The write of a content under a tag: its begin frame, the frames that carry it, and no failing command. */
  function Transfer(H: Hash, session: string, transfer: string, tag: Tag, content: seq<Byte>, frames: seq<Frame>): Rpc {
    WriteFile(session, transfer, Some(tag), Descriptor(|content|, H(content)), BeginCommands(true, true, true),
              Clean(frames), CommitCommands(true, true, true, true), true)
  }

  /**
    End to end, begin frame included: the content becomes the final file byte for byte if and only if its descriptor
    opens a write; otherwise nothing changes.
   */
  lemma EndToEnd(H: Hash, s: Service, transfer: string, tag: Tag, content: seq<Byte>, frames: seq<Frame>,
                 c: CleanupCommands)
    requires Inv(H, s) && s.state == Prepared && Carries(H, content, frames)
    ensures var d := Descriptor(|content|, H(content));
      var (s', ok) := Write(H, s, Transfer(H, s.session, transfer, tag, content, frames), c);
      && (ok <==> content != [] && ValidTransferId(transfer) && ValidHeader(tag, d, s.maxFileBytes))
      && (ok ==> s'.state == Written && s'.adapter.final == Some(content))
      && (ok ==> s'.receipt == Some(Receipt(transfer, H(content), None)))
      && (!ok ==> s' == s)
  {
    var d := Descriptor(|content|, H(content));
    var r := Transfer(H, s.session, transfer, tag, content, frames);
    assert FramesOf(r.items) == frames;
    assert Transfers(H, d, frames, |frames| - 1) && NoFault(r.items, |frames| - 1);
    WrittenExactly(H, s, r, c);
    if Opens(transfer, r.tag, d, s.maxFileBytes) {
      var n: nat :| Stored(H, d, frames, n, Write(H, s, r, c).0.adapter);
      assert n == |frames| - 1;
    }
  }

  /** The scanner's own begin frames never open a write: every output name it makes contains a slash. */
  lemma ScannerBeginIsRefused(H: Hash, s: Service, r: Rpc, sha: string, mime: string, c: CleanupCommands)
    requires r.WriteFile? && |sha| >= 32 && r.tag.Some? && r.tag.value.name == SanitizedName(sha, mime)
    ensures Write(H, s, r, c) == (s, false)
  {
    SanitizedNameIsRefused(sha, mime);
  }

  // ----- every RPC sequence

  predicate Inv(H: Hash, s: Service) {
    && Nested(s.adapter) && s.adapter.writer.None?
    && (s.state == Boot || s.state == Inspected || s.state == Finalized || s.state == Closed ==> Nothing(s.adapter))
    && (s.state == Inspected ==> s.adapter.device)
    && (s.state == Prepared || s.state == Written || s.state == Verified ==> s.adapter.mounted)
    && (s.state == Written || s.state == Verified ==>
          s.receipt.Some? && s.adapter.final.Some? && H(s.adapter.final.value) == s.receipt.value.digest)
    && (s.state == Verified || s.state == Finalized ==>
          s.receipt.Some? && s.receipt.value.reread == Some(s.receipt.value.digest))
  }

  lemma CleanupReleases(a: Adapter, c: CleanupCommands)
    requires Nested(a)
    ensures Nested(Cleanup(a, c).0) && Cleanup(a, c).0.writer.None?
    ensures Cleanup(a, c).1 ==> Nothing(Cleanup(a, c).0)
    ensures c.remove && c.umount && c.close && c.inTime ==> Cleanup(a, c).1
  {
  }

  /** A write that fails after it has begun ends released, whatever its last removal does. */
  lemma FailedWriteKeepsInv(H: Hash, s: Service, a: Adapter, c: CleanupCommands, lateRemove: bool)
    requires Inv(H, s) && Nested(a)
    ensures var s' := Fail(s.(adapter := a), c);
      Inv(H, s') && Inv(H, s'.(adapter := Abort(s'.adapter, lateRemove).0))
  {
    CleanupReleases(a, c);
  }

  /** Storing never unmounts; if it succeeds, the writer is gone and the final file has the described digest. */
  lemma StoreOutcome(H: Hash, a: Adapter, d: Descriptor, items: seq<Item>, commit: CommitCommands)
    requires Nested(a) && InStep(a, d, [])
    ensures var (a', done) := Store(H, a, d, items, commit);
      && Nested(a') && a'.mounted == a.mounted
      && (done ==> a'.writer.None? && a'.final.Some? && H(a'.final.value) == d.digest)
  {
    AbsorbHolds(H, a, d, 0, [], items);
    AbsorbedExactly(H, a, d, items);
  }

  lemma WriteKeepsInv(H: Hash, s: Service, r: Rpc, c: CleanupCommands)
    requires Inv(H, s) && r.WriteFile?
    ensures Inv(H, Write(H, s, r, c).0)
  {
    var (a1, begun) := BeginWrite(s.adapter, r.d.size, r.begin);
    FailedWriteKeepsInv(H, s, a1, c, r.lateRemove);
    if s.state == Prepared && begun {
      StoreOutcome(H, a1, r.d, r.items, r.commit);
      FailedWriteKeepsInv(H, s, Store(H, a1, r.d, r.items, r.commit).0, c, r.lateRemove);
    }
  }

  lemma StepKeepsInv(H: Hash, s: Service, r: Rpc, c: CleanupCommands)
    requires Inv(H, s)
    ensures Inv(H, Step(H, s, r, c).0)
  {
    if r.WriteFile? {
      WriteKeepsInv(H, s, r, c);
    }
  }

  function Run(H: Hash, s: Service, calls: seq<(Rpc, CleanupCommands)>): Service
    decreases |calls|
  {
    if calls == [] then s else Run(H, Step(H, s, calls[0].0, calls[0].1).0, calls[1..])
  }

  lemma {:induction false} RunKeepsInv(H: Hash, s: Service, calls: seq<(Rpc, CleanupCommands)>)
    requires Inv(H, s)
    ensures Inv(H, Run(H, s, calls))
    decreases |calls|
  {
    if calls == [] {
    } else {
      StepKeepsInv(H, s, calls[0].0, calls[0].1);
      RunKeepsInv(H, Step(H, s, calls[0].0, calls[0].1).0, calls[1..]);
    }
  }

  /** Ownership after any RPC sequence with any failures. */
  lemma Ownership(H: Hash, max: nat, calls: seq<(Rpc, CleanupCommands)>)
    ensures var s := Run(H, Fresh(max), calls);
      && Nested(s.adapter) && s.adapter.writer.None?
      && (s.state == Prepared || s.state == Written || s.state == Verified ==>
            s.adapter.mounted && s.adapter.mapperOpen)
      && (s.state == Boot || s.state == Inspected || s.state == Finalized || s.state == Closed ==> Nothing(s.adapter))
      && (s.state == Verified ==>
            && s.receipt.Some? && s.receipt.value.reread == Some(s.receipt.value.digest)
            && s.adapter.final.Some? && H(s.adapter.final.value) == s.receipt.value.digest)
  {
    RunKeepsInv(H, Fresh(max), calls);
  }

  /** From any reachable state one clean Close releases everything, and nothing succeeds after it but Close. */
  lemma CloseEnds(H: Hash, max: nat, calls: seq<(Rpc, CleanupCommands)>, r: Rpc, c: CleanupCommands)
    ensures var s := Run(H, Fresh(max), calls);
      var (s', ok) := Step(H, s, CloseService, CleanupCommands(true, true, true, true));
      ok && s'.state == Closed && Nothing(s'.adapter) && Step(H, s', r, c) == (s', r.CloseService?)
  {
    RunKeepsInv(H, Fresh(max), calls);
  }

  /** Position in the documented order; every failure leaves it for good. */
  function Rank(st: State): nat {
    match st
    case Boot => 0 case Inspected => 1 case Prepared => 2 case Written => 3
    case Verified => 4 case Finalized => 5 case Incomplete => 6 case Closed => 7
  }

  /** A successful RPC other than Close moves exactly one state on; a failed one stays or ends in `incomplete`. */
  lemma OneStepAtATime(H: Hash, s: Service, r: Rpc, c: CleanupCommands)
    requires Inv(H, s)
    ensures var (s', ok) := Step(H, s, r, c);
      if r.CloseService? then s'.state == Closed || s'.state == Incomplete
      else if ok then Rank(s'.state) == Rank(s.state) + 1 && Rank(s'.state) <= 5
      else s' == s || s'.state == Incomplete
  {
  }
}
