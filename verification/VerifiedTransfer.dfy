/**
  The framed transfer from the scanner's approved output to the exporter: the chunk
  producer, and the exact set of frame streams a receiver may accept.  The hash is an
  arbitrary function of the whole byte string.
 */
module VerifiedTransfer {
  import opened Bytes

  const MAX_CHUNK: nat := 1024 * 1024

  type Digest = seq<Byte>
  type Hash = seq<Byte> -> Digest

  datatype Descriptor = Descriptor(size: nat, digest: Digest)

  /** The rest of a begin frame's descriptor; names and media types are byte strings. */
  datatype Tag = Tag(name: seq<Byte>, media: seq<Byte>, algorithm: string)

  const SLASH: Byte := 47
  const BACKSLASH: Byte := 92
  const DOT: Byte := 46

  predicate Control(b: Byte) {
    b < 32 || b == 127
  }

  /** One path component that is safe to use as a file name. */
  predicate SafeName(name: seq<Byte>) {
    && 0 < |name| <= 255 && name != [DOT] && name != [DOT, DOT]
    && forall i :: 0 <= i < |name| ==> name[i] != SLASH && name[i] != BACKSLASH && !Control(name[i])
  }

  predicate ValidMedia(media: seq<Byte>) {
    |media| <= 255 && 0 !in media && 13 !in media && 10 !in media
  }

  /** The exporter's header check. */
  predicate ValidHeader(tag: Tag, d: Descriptor, maximum: nat) {
    && tag.algorithm == "sha256" && |d.digest| == 32
    && SafeName(tag.name) && d.size <= maximum && ValidMedia(tag.media)
  }

  predicate Continuation(b: Byte) {
    0x80 <= b <= 0xBF
  }

  /** Well-formed UTF-8 (section 4 of RFC 3629). */
  predicate ValidUtf8(s: seq<Byte>)
    decreases |s|
  {
    if s == [] then true
    else if s[0] < 0x80 then ValidUtf8(s[1..])
    else if |s| >= 2 && 0xC2 <= s[0] <= 0xDF then Continuation(s[1]) && ValidUtf8(s[2..])
    else if |s| >= 3 && 0xE0 <= s[0] <= 0xEF then
      && Continuation(s[1]) && Continuation(s[2])
      && (s[0] == 0xE0 ==> s[1] >= 0xA0) && (s[0] == 0xED ==> s[1] <= 0x9F) && ValidUtf8(s[3..])
    else if |s| >= 4 && 0xF0 <= s[0] <= 0xF4 then
      && Continuation(s[1]) && Continuation(s[2]) && Continuation(s[3])
      && (s[0] == 0xF0 ==> s[1] >= 0x90) && (s[0] == 0xF4 ==> s[1] <= 0x8F) && ValidUtf8(s[4..])
    else false
  }

  /** The daemon's own check of the name of an approved output. */
  predicate ApprovedName(name: seq<Byte>) {
    && 0 < |name| <= 255 && ValidUtf8(name) && name != [DOT] && name != [DOT, DOT]
    && 0 !in name && 13 !in name && 10 !in name && SLASH !in name && BACKSLASH !in name
  }

  predicate ApprovedId(id: string) {
    8 <= |id| <= 128 && '\0' !in id && '\r' !in id && '\n' !in id && '/' !in id && '\\' !in id
  }

  predicate ZeroDigest(digest: Digest) {
    forall i :: 0 <= i < |digest| ==> digest[i] == 0
  }

  /** The daemon's check of an approved output, but for the evidence its role needs. */
  predicate ApprovedOutput(id: string, name: seq<Byte>, media: seq<Byte>, size: nat, digest: Digest, maximum: nat) {
    && ApprovedId(id) && ApprovedName(name)
    && media != [] && ValidMedia(media)
    && 0 < size <= maximum && !ZeroDigest(digest)
  }

  function Ascii(s: string): (bytes: seq<Byte>)
    ensures |bytes| == |s|
  {
    seq(|s|, i requires 0 <= i < |s| => if s[i] < '\U{80}' then s[i] as int else 63)
  }

  function Extension(mime: string): string {
    if mime == "application/pdf" then ".pdf"
    else if mime == "image/png" then ".png"
    else if mime == "audio/mp4" then ".m4a"
    else if mime == "video/mp4" then ".mp4"
    else if mime == "text/plain" then ".txt"
    else ".bin"
  }

  /** The logical name the scanner gives every reconstructed output. */
  function SanitizedName(sha: string, mime: string): seq<Byte>
    requires |sha| >= 32
  {
    Ascii("sanitized/") + Ascii(sha[..32]) + Ascii(Extension(mime))
  }

  /** Whatever the digest and the type, that name is refused on both sides of the transfer. */
  lemma SanitizedNameIsRefused(sha: string, mime: string)
    requires |sha| >= 32
    ensures !SafeName(SanitizedName(sha, mime)) && !ApprovedName(SanitizedName(sha, mime))
  {
    var name := SanitizedName(sha, mime);
    assert "sanitized/"[9] == '/';
    assert name[9] == Ascii("sanitized/")[9] == SLASH;
  }

  datatype Frame = Chunk(sequence: nat, data: seq<Byte>) | End(total: nat, digest: Digest) | Other

  function DataOf(f: Frame): seq<Byte> {
    if f.Chunk? then f.data else []
  }

  /** The bytes carried by the chunk frames of a stream. */
  function Payload(frames: seq<Frame>): seq<Byte> {
    if frames == [] then [] else DataOf(frames[0]) + Payload(frames[1..])
  }

  /** The first `n` frames are consecutive bounded chunks. */
  predicate Chunks(frames: seq<Frame>, n: nat) {
    && n <= |frames|
    && forall i :: 0 <= i < n ==> frames[i].Chunk? && frames[i].sequence == i && 0 < |frames[i].data| <= MAX_CHUNK
  }

  /** `n` chunks and an end frame that together are the described content. */
  predicate Transfers(H: Hash, d: Descriptor, frames: seq<Frame>, n: nat) {
    && n < |frames| && Chunks(frames, n) && frames[n] == End(d.size, d.digest)
    && |Payload(frames[..n])| == d.size && H(Payload(frames[..n])) == d.digest
  }

  /** The same with the sending side in view: nothing after the end frame, and every chunk but the last full. */
  predicate Carries(H: Hash, content: seq<Byte>, frames: seq<Frame>) {
    && frames != []
    && Transfers(H, Descriptor(|content|, H(content)), frames, |frames| - 1)
    && Payload(frames[..|frames| - 1]) == content
    && forall i :: 0 <= i < |frames| - 2 ==> |frames[i].data| == MAX_CHUNK
  }

  /** `content` cut into frames numbered from `k`. */
  function Chunked(content: seq<Byte>, k: nat): seq<Frame> {
    if content == [] then [] else
    var n := if |content| < MAX_CHUNK then |content| else MAX_CHUNK;
    [Chunk(k, content[..n])] + Chunked(content[n..], k + 1)
  }

  lemma {:induction false} ChunkedPayload(content: seq<Byte>, k: nat)
    ensures Payload(Chunked(content, k)) == content
    decreases |content|
  {
    if content == [] {
    } else {
      var n := if |content| < MAX_CHUNK then |content| else MAX_CHUNK;
      ChunkedPayload(content[n..], k + 1);
      assert Chunked(content, k)[1..] == Chunked(content[n..], k + 1);
      assert content == content[..n] + content[n..];
    }
  }

  /** As few chunks as the bound on their size allows. */
  lemma {:induction false} ChunkedCount(content: seq<Byte>, k: nat)
    ensures |content| <= MAX_CHUNK * |Chunked(content, k)| < |content| + MAX_CHUNK
    decreases |content|
  {
    if content == [] {
    } else {
      var n := if |content| < MAX_CHUNK then |content| else MAX_CHUNK;
      ChunkedCount(content[n..], k + 1);
      assert |Chunked(content, k)| == 1 + |Chunked(content[n..], k + 1)|;
    }
  }

  lemma {:induction false} ChunkedShape(content: seq<Byte>, k: nat)
    ensures forall i :: 0 <= i < |Chunked(content, k)| ==> var f := Chunked(content, k)[i];
              f.Chunk? && f.sequence == k + i && 0 < |f.data| <= MAX_CHUNK
    ensures forall i :: 0 <= i < |Chunked(content, k)| - 1 ==> |Chunked(content, k)[i].data| == MAX_CHUNK
    decreases |content|
  {
    if content == [] {
    } else {
      var n := if |content| < MAX_CHUNK then |content| else MAX_CHUNK;
      var rest := Chunked(content[n..], k + 1);
      ChunkedShape(content[n..], k + 1);
      assert Chunked(content, k) == [Chunk(k, content[..n])] + rest;
    }
  }

  lemma ChunkedCarries(H: Hash, content: seq<Byte>)
    ensures Carries(H, content, Chunked(content, 0) + [End(|content|, H(content))])
  {
    ChunkedPayload(content, 0);
    ChunkedShape(content, 0);
    var frames := Chunked(content, 0) + [End(|content|, H(content))];
    assert frames[..|frames| - 1] == Chunked(content, 0);
  }

  /** The frames for the first `total` bytes of `c` are out. */
  predicate Sent(c: seq<Byte>, frames: seq<Frame>, total: nat) {
    total <= |c| && frames + Chunked(c[total..], |frames|) == Chunked(c, 0)
  }

  lemma SendNext(c: seq<Byte>, frames: seq<Frame>, total: nat, count: nat)
    requires Sent(c, frames, total) && 0 < count <= MAX_CHUNK && total + count <= |c|
    requires count < MAX_CHUNK ==> total + count == |c|
    ensures Sent(c, frames + [Chunk(|frames|, c[total..total + count])], total + count)
    ensures |frames| < |Chunked(c, 0)|
  {
    var rest := c[total..];
    assert rest[..count] == c[total..total + count] && rest[count..] == c[total + count..];
    assert Chunked(rest, |frames|) == [Chunk(|frames|, rest[..count])] + Chunked(rest[count..], |frames| + 1);
  }

  /** The chunk loop: reads up to `size` bytes, stops at the first short read or refused send. */
  method SendChunks(content: seq<Byte>, size: nat, sends: nat) returns (frames: seq<Frame>, hashed: seq<Byte>, ok: bool)
    ensures ok <==> size <= |content| && |Chunked(Readable(content, size), 0)| <= sends
    ensures ok ==> frames == Chunked(Readable(content, size), 0) && hashed == content[..size]
    ensures frames <= Chunked(Readable(content, size), 0)
  {
    ghost var c := Readable(content, size);
    frames, hashed := [], [];
    var total := 0;
    assert c[0..] == c;
    while total < size
      invariant total <= |c|
      invariant hashed == c[..total]
      invariant Sent(c, frames, total)
      invariant |frames| <= sends
    {
      var want := if size - total < MAX_CHUNK then size - total else MAX_CHUNK;
      var count := if |content| - total < want then |content| - total else want;
      if count > 0 {
        SendNext(c, frames, total, count);
        if |frames| >= sends {
          return frames, hashed, false;
        }
        var data := content[total..total + count];
        hashed := hashed + data;
        frames := frames + [Chunk(|frames|, data)];
        total := total + count;
      }
      if count < want {
        return frames, hashed, false;
      }
    }
    assert c[total..] == [];
    ok := true;
  }

  /**
    The scanner's ExportApprovedFile after its descriptor was sent.  `content` is what the
    opened output yields, `d` its authenticated report row, `sends` the number of frames the
    stream still takes, `readFails` an error of the final one-byte probe or of Close.
   */
  method ExportApprovedFile(H: Hash, content: seq<Byte>, d: Descriptor, sends: nat, readFails: bool)
    returns (frames: seq<Frame>, ok: bool)
    ensures ok <==> |content| == d.size && H(content) == d.digest && !readFails && |Chunked(content, 0)| < sends
    ensures ok ==> Carries(H, content, frames)
    ensures !ok ==> frames <= Chunked(Readable(content, d.size), 0)
  {
    var hashed;
    assert |content| == d.size ==> content[..d.size] == content;
    frames, hashed, ok := SendChunks(content, d.size, sends);
    if !ok || |content| > d.size || readFails || H(hashed) != d.digest || |frames| >= sends {
      return frames, false;
    }
    ChunkedCarries(H, content);
    return frames + [End(d.size, H(hashed))], true;
  }

  /** What a reader limited to `size` bytes yields. */
  function Readable(content: seq<Byte>, size: nat): seq<Byte> {
    if |content| < size then content else content[..size]
  }
}
