/**
  Archive inspection: one pass over the member headers against the limits, before anything
  is extracted.
 */
module Archives {
  import opened Bytes

  const MAXIMUM_UINT64: nat := 18446744073709551615
  const MAXIMUM_PATH_BYTES: nat := 4096

  datatype Code =
    | ArchiveInvalid
    | ArchiveEncrypted
    | ArchiveLinkRejected
    | ArchiveSpecialFileRejected
    | ArchiveDuplicatePath
    | ArchiveLimitReached
    | ArchivePathUnsafe
    | ArchiveExtractionFailed
    | ScanLimitReached
    | ScanLimitInvalid
    | ArchiveCleanupIncomplete
    | Cancelled
    | Unavailable
    | OtherCode

  /** The codes that blame the content of an archive. */
  predicate ContentRejection(code: Code) {
    || code.ArchiveInvalid? || code.ArchiveEncrypted? || code.ArchiveLinkRejected?
    || code.ArchiveSpecialFileRejected? || code.ArchiveDuplicatePath? || code.ArchiveLimitReached?
    || code.ArchivePathUnsafe? || code.ArchiveExtractionFailed? || code.ScanLimitReached?
  }

  datatype Limits = Limits(maxDepth: nat, maxEntries: nat, maxPathBytes: nat, maxFileBytes: nat, maxExpandedBytes: nat,
                           maxRatio: real)

  predicate Supported(limits: Limits) {
    && 0 < limits.maxEntries <= 1000000
    && 0 < limits.maxFileBytes <= 1099511627776
    && 0 < limits.maxExpandedBytes <= 4398046511104
    && 1.0 <= limits.maxRatio <= 1000.0
    && (limits.maxPathBytes == 0 || 64 <= limits.maxPathBytes <= MAXIMUM_PATH_BYTES)
  }

  datatype Format = Zip | Tar
  datatype Kind = Regular | Directory | Link | Special

  /** A member header: `path` is its normalized path, None when the path is unsafe. */
  datatype Header = Header(kind: Kind, encrypted: bool, path: Option<string>, size: int, compressed: nat)

  /** What parsing the archive yields: member headers, and whether parsing reached the end. */
  datatype Listing = Listing(headers: seq<Header>, parsed: bool)

  datatype Plan = Plan(format: Format, depth: nat, entries: seq<Header>, expanded: nat, compressed: nat)
  datatype Inspection = Planned(plan: Plan) | Refused(code: Code)

  function Expanded(headers: seq<Header>): int {
    if headers == [] then 0 else Expanded(headers[..|headers| - 1]) + headers[|headers| - 1].size
  }

  /** A TAR member has no packed size of its own: the whole file counts once. */
  function Packed(format: Format, h: Header): nat {
    if format.Tar? then 0 else h.compressed
  }

  function Compressed(format: Format, size: nat, headers: seq<Header>): nat {
    if headers == [] then (if format.Tar? then size else 0)
    else Compressed(format, size, headers[..|headers| - 1]) + Packed(format, headers[|headers| - 1])
  }

  /** Neither the type nor the path of a member is refused. */
  predicate Plain(format: Format, h: Header) {
    && (format.Zip? ==> !h.encrypted) && h.size >= 0
    && (h.kind.Regular? || h.kind.Directory?) && h.path.Some?
  }

  predicate RatioFits(format: Format, expanded: nat, compressed: nat, limits: Limits) {
    && (format.Zip? && expanded > 0 ==> compressed > 0)
    && (compressed > 0 ==> expanded as real / compressed as real <= limits.maxRatio)
  }

  predicate DistinctPaths(headers: seq<Header>) {
    forall i, j :: 0 <= i < j < |headers| ==> headers[i].path != headers[j].path
  }

  /** A prefix of the headers that passes every per-member check. */
  predicate Fits(format: Format, size: nat, headers: seq<Header>, limits: Limits) {
    && |headers| <= limits.maxEntries && DistinctPaths(headers)
    && (forall i :: 0 <= i < |headers| ==> Plain(format, headers[i]) && headers[i].size <= limits.maxFileBytes)
    && 0 <= Expanded(headers) <= limits.maxExpandedBytes
    && Compressed(format, size, headers) <= MAXIMUM_UINT64
  }

  /** Everything an archive has to satisfy to be extracted. */
  predicate Admissible(format: Format, size: nat, listing: Listing, depth: nat, limits: Limits) {
    && limits.maxDepth <= 10 && depth <= limits.maxDepth && Supported(limits)
    && size <= limits.maxFileBytes && listing.parsed
    && Fits(format, size, listing.headers, limits)
    && RatioFits(format, Expanded(listing.headers), Compressed(format, size, listing.headers), limits)
  }

  lemma ExpandedStep(format: Format, size: nat, headers: seq<Header>, k: nat)
    requires k < |headers|
    ensures Expanded(headers[..k + 1]) == Expanded(headers[..k]) + headers[k].size
    ensures Compressed(format, size, headers[..k + 1]) ==
            Compressed(format, size, headers[..k]) + Packed(format, headers[k])
  {
    assert headers[..k + 1][..k] == headers[..k];
  }

  lemma ExpandedOfTwo(format: Format, size: nat, a: Header, b: Header)
    ensures [a, b][..1] == [a] && Expanded([a]) == a.size && Expanded([a, b]) == a.size + b.size
    ensures var start := Compressed(format, size, []);
      && Compressed(format, size, [a]) == start + Packed(format, a)
      && Compressed(format, size, [a, b]) == start + Packed(format, a) + Packed(format, b)
  {
    ExpandedStep(format, size, [a, b], 0);
    ExpandedStep(format, size, [a, b], 1);
    assert [a, b][..1] == [a] && [a, b][..2] == [a, b];
  }

  /** Totals of plain members only grow. */
  lemma {:induction false} ExpandedGrows(format: Format, size: nat, headers: seq<Header>, k: nat)
    requires k <= |headers| && forall i :: 0 <= i < |headers| ==> Plain(format, headers[i])
    ensures Expanded(headers[..k]) <= Expanded(headers)
    ensures Compressed(format, size, headers[..k]) <= Compressed(format, size, headers)
    decreases |headers| - k
  {
    if k == |headers| {
      assert headers[..k] == headers;
    } else {
      ExpandedStep(format, size, headers, k);
      ExpandedGrows(format, size, headers, k + 1);
    }
  }

  /** Headers that fit as a whole fit as far as one reads them. */
  lemma FitsPrefix(format: Format, size: nat, headers: seq<Header>, limits: Limits, k: nat)
    requires k < |headers| && Fits(format, size, headers, limits)
    ensures Plain(format, headers[k]) && headers[k].size <= limits.maxFileBytes && k < limits.maxEntries
    ensures Expanded(headers[..k]) + headers[k].size <= limits.maxExpandedBytes
    ensures Compressed(format, size, headers[..k]) + Packed(format, headers[k]) <= MAXIMUM_UINT64
    ensures forall i :: 0 <= i < k ==> headers[i].path != headers[k].path
  {
    ExpandedStep(format, size, headers, k);
    ExpandedGrows(format, size, headers, k + 1);
  }

  /** The type checks of one member, in the order of each format. */
  function TypeCheck(format: Format, h: Header): (code: Option<Code>)
    ensures code.None? && h.path.Some? <==> Plain(format, h)
    ensures code.Some? ==> ContentRejection(code.value)
  {
    if format.Zip? && h.encrypted then Some(ArchiveEncrypted)
    else if h.size < 0 then Some(ArchiveInvalid)
    else if h.kind.Link? then Some(ArchiveLinkRejected)
    else if h.kind.Special? then Some(ArchiveSpecialFileRejected)
    else None
  }

  /** The accounting of one member: unsafe or repeated path, then counts and sizes. */
  function AddCheck(format: Format, h: Header, seen: set<string>, count: nat, expanded: nat, compressed: nat,
                    limits: Limits): (code: Option<Code>)
    ensures code.Some? ==> ContentRejection(code.value)
  {
    if h.path.None? then Some(ArchivePathUnsafe)
    else if h.path.value in seen then Some(ArchiveDuplicatePath)
    else if count >= limits.maxEntries then Some(ArchiveLimitReached)
    else if h.size > limits.maxFileBytes || expanded + h.size > limits.maxExpandedBytes then Some(ArchiveLimitReached)
    else if compressed + Packed(format, h) > MAXIMUM_UINT64 then Some(ArchiveLimitReached)
    else None
  }

  lemma AddCheckMeaning(format: Format, size: nat, headers: seq<Header>, limits: Limits, k: nat, seen: set<string>)
    requires k < |headers| && Fits(format, size, headers[..k], limits)
    requires seen == set i | 0 <= i < k && headers[i].path.Some? :: headers[i].path.value
    ensures var packed := Compressed(format, size, headers[..k]);
      TypeCheck(format, headers[k]) == None &&
      AddCheck(format, headers[k], seen, k, Expanded(headers[..k]), packed, limits) == None <==>
      Fits(format, size, headers[..k + 1], limits)
  {
    var packed := Compressed(format, size, headers[..k]);
    var next := headers[..k + 1];
    assert next[..k] == headers[..k] && next[k] == headers[k];
    ExpandedStep(format, size, headers, k);
    if TypeCheck(format, headers[k]) == None
       && AddCheck(format, headers[k], seen, k, Expanded(headers[..k]), packed, limits) == None {
      forall i, j | 0 <= i < j < |next| ensures next[i].path != next[j].path {
        assert headers[..k][i] == next[i];
        assert j < k ==> headers[..k][j] == next[j];
      }
      assert forall i :: 0 <= i < k ==> next[i] == headers[..k][i];
    }
    if Fits(format, size, next, limits) {
      FitsPrefix(format, size, next, limits, k);
    }
  }

  /** The member loop shared by both formats. */
  method InspectMembers(format: Format, size: nat, headers: seq<Header>, limits: Limits)
    returns (code: Option<Code>, expanded: nat, compressed: nat)
    requires size <= MAXIMUM_UINT64
    ensures code.None? <==> Fits(format, size, headers, limits)
    ensures code.Some? ==> ContentRejection(code.value)
    ensures code.None? ==> expanded == Expanded(headers) && compressed == Compressed(format, size, headers)
  {
    expanded, compressed := 0, if format.Tar? then size else 0;
    var seen: set<string> := {};
    var k := 0;
    while k < |headers|
      invariant 0 <= k <= |headers|
      invariant seen == set i | 0 <= i < k && headers[i].path.Some? :: headers[i].path.value
      invariant Fits(format, size, headers[..k], limits)
      invariant expanded == Expanded(headers[..k]) && compressed == Compressed(format, size, headers[..k])
    {
      AddCheckMeaning(format, size, headers, limits, k, seen);
      ExpandedStep(format, size, headers, k);
      code := TypeCheck(format, headers[k]);
      if code.None? {
        code := AddCheck(format, headers[k], seen, k, expanded, compressed, limits);
      }
      if code.Some? {
        Unfit(format, size, headers, limits, k);
        return;
      }
      expanded, compressed := expanded + headers[k].size, compressed + Packed(format, headers[k]);
      seen := seen + {headers[k].path.value};
      k := k + 1;
    }
    assert headers[..k] == headers;
    code := None;
  }

  lemma Unfit(format: Format, size: nat, headers: seq<Header>, limits: Limits, k: nat)
    requires k < |headers| && Fits(format, size, headers[..k], limits) && !Fits(format, size, headers[..k + 1], limits)
    ensures !Fits(format, size, headers, limits)
  {
    if Fits(format, size, headers, limits) {
      FitsPrefix(format, size, headers, limits, k);
      ExpandedStep(format, size, headers, k);
      var next := headers[..k + 1];
      assert forall i :: 0 <= i < |next| ==> next[i] == headers[i];
      assert false;
    }
  }

  /** Inspection plans exactly the admissible archives; with supported limits every refusal blames the content. */
  method Inspect(format: Format, size: nat, listing: Listing, depth: nat, limits: Limits) returns (r: Inspection)
    ensures r.Planned? <==> Admissible(format, size, listing, depth, limits)
    ensures r.Planned? ==> r.plan == Plan(format, depth, listing.headers, Expanded(listing.headers),
                                          Compressed(format, size, listing.headers))
    ensures r.Refused? ==> ContentRejection(r.code) || (r.code == ScanLimitInvalid && !Supported(limits))
  {
    if limits.maxDepth > 10 || depth > limits.maxDepth {
      return Refused(ArchiveLimitReached);
    }
    if !Supported(limits) {
      return Refused(ScanLimitInvalid);
    }
    if size > limits.maxFileBytes {
      return Refused(ArchiveLimitReached);
    }
    if format.Zip? && !listing.parsed {
      return Refused(ArchiveInvalid);
    }
    var code, expanded, compressed := InspectMembers(format, size, listing.headers, limits);
    if code.Some? {
      return Refused(code.value);
    }
    if !listing.parsed {
      return Refused(ArchiveInvalid);
    }
    if !RatioFits(format, expanded, compressed, limits) {
      return Refused(ArchiveLimitReached);
    }
    return Planned(Plan(format, depth, listing.headers, expanded, compressed));
  }
}
