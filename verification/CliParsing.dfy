/**
  The two structured command-line values: a torrent file selection and an IEC memory size.
 */
module CliParsing {
  import opened Bytes

  const MAXIMUM_PARTS: nat := 4096
  const MAXIMUM_SELECTION: nat := 4096 * 10 + 4095
  const MAXIMUM_UINT32: nat := 4294967295
  const MAXIMUM_UINT64: nat := 18446744073709551615

  // ----- unsigned decimals

  predicate IsDigit(c: char) {
    '0' <= c <= '9'
  }

  predicate AllDigits(s: string) {
    forall i :: 0 <= i < |s| ==> IsDigit(s[i])
  }

  function Value(s: string): nat
    requires AllDigits(s)
  {
    if s == "" then 0 else 10 * Value(s[..|s| - 1]) + (s[|s| - 1] as int - '0' as int)
  }

  /** strconv.ParseUint in base ten: digits only, within the bit size. */
  function ParseUint(s: string, maximum: nat): Option<nat> {
    if s != "" && AllDigits(s) && Value(s) <= maximum then Some(Value(s)) else None
  }

  function Decimal(n: nat): (s: string)
    ensures s != "" && AllDigits(s)
  {
    (if n < 10 then "" else Decimal(n / 10)) + [Digit(n % 10)]
  }

  function Digit(d: nat): (c: char)
    requires d < 10
    ensures IsDigit(c) && c as int - '0' as int == d
  {
    ('0' as int + d) as char
  }

  lemma ValueAppend(s: string, d: nat)
    requires AllDigits(s) && d < 10
    ensures AllDigits(s + [Digit(d)]) && Value(s + [Digit(d)]) == 10 * Value(s) + d
  {
    var t := s + [Digit(d)];
    assert t[..|t| - 1] == s && t[|t| - 1] == Digit(d);
  }

  lemma {:induction false} ValueOfDecimal(n: nat)
    ensures Value(Decimal(n)) == n
  {
    if n < 10 {
      ValueAppend("", n);
      assert "" + [Digit(n)] == Decimal(n);
    } else {
      ValueOfDecimal(n / 10);
      ValueAppend(Decimal(n / 10), n % 10);
      assert 10 * (n / 10) + n % 10 == n;
    }
  }

  function PowerOfTen(k: nat): nat {
    if k == 0 then 1 else 10 * PowerOfTen(k - 1)
  }

  lemma {:induction false} DecimalWidth(n: nat, k: nat)
    requires k > 0 && n < PowerOfTen(k)
    ensures |Decimal(n)| <= k
  {
    if n >= 10 {
      DecimalWidth(n / 10, k - 1);
    }
  }

  /** A 32-bit number prints in at most ten characters. */
  lemma DecimalIsShort(n: nat)
    requires n <= MAXIMUM_UINT32
    ensures |Decimal(n)| <= 10
  {
    assert PowerOfTen(10) == 10000000000;
    DecimalWidth(n, 10);
  }

  // ----- comma separated lists

  predicate NoComma(s: string) {
    ',' !in s
  }

  function Join(parts: seq<string>): string
    requires parts != []
  {
    if |parts| == 1 then parts[0] else parts[0] + "," + Join(parts[1..])
  }

  /** Splitting undoes joining. */
  lemma {:induction false} SplitOfJoin(parts: seq<string>)
    requires parts != [] && forall i :: 0 <= i < |parts| ==> NoComma(parts[i])
    ensures Split(Join(parts), ',') == parts
  {
    if |parts| == 1 {
      SplitOne(parts[0], ',');
    } else {
      SplitOne(parts[0], ',');
      SplitJoined(parts[0], Join(parts[1..]), ',');
      SplitOfJoin(parts[1..]);
    }
  }

  // ----- the file selection

  /** What one part selects, if it is a positive 32-bit index. */
  function Index(part: string): Option<nat> {
    var n := ParseUint(part, MAXIMUM_UINT32);
    if n == Some(0) then None else n
  }

  predicate Selects(parts: seq<string>, indexes: seq<nat>) {
    && |parts| == |indexes|
    && (forall i :: 0 <= i < |parts| ==> Index(parts[i]) == Some(indexes[i]))
    && Distinct(indexes)
  }

  predicate Acceptable(value: string, indexes: seq<nat>) {
    && value != "" && |value| <= MAXIMUM_SELECTION
    && |Split(value, ',')| <= MAXIMUM_PARTS && Selects(Split(value, ','), indexes)
  }

  /** Parts that cannot be selected, whatever the indexes. */
  lemma NotSelected(parts: seq<string>, indexes: seq<nat>, i: nat)
    requires i < |parts|
    requires Index(parts[i]) == None || exists j :: 0 <= j < i && Index(parts[j]) == Index(parts[i])
    ensures !Selects(parts, indexes)
  {
  }

  method ParseFileSelection(value: string) returns (r: Option<seq<nat>>)
    ensures r.Some? ==> Acceptable(value, r.value)
    ensures r.None? ==> forall indexes :: !Acceptable(value, indexes)
  {
    if value == "" || |value| > MAXIMUM_SELECTION {
      return None;
    }
    var parts := Split(value, ',');
    if |parts| > MAXIMUM_PARTS {
      return None;
    }
    var seen: set<nat>, indexes: seq<nat> := {}, [];
    for k := 0 to |parts|
      invariant |indexes| == k && (forall j :: 0 <= j < k ==> Index(parts[j]) == Some(indexes[j]))
      invariant Distinct(indexes) && forall n :: n in seen <==> n in indexes
    {
      var index := Index(parts[k]);
      if index.None? || index.value in seen {
        forall others ensures !Acceptable(value, others) {
          assert index.Some? ==> exists j :: 0 <= j < k && indexes[j] == index.value;
          NotSelected(parts, others, k);
        }
        return None;
      }
      seen, indexes := seen + {index.value}, indexes + [index.value];
    }
    return Some(indexes);
  }

  // ----- printing a selection and reading it back

  function Printed(indexes: seq<nat>): (parts: seq<string>)
    ensures |parts| == |indexes|
  {
    seq(|indexes|, i requires 0 <= i < |indexes| => Decimal(indexes[i]))
  }

  lemma {:induction false} JoinIsShort(parts: seq<string>)
    requires parts != [] && forall i :: 0 <= i < |parts| ==> 0 < |parts[i]| <= 10
    ensures 0 < |Join(parts)| <= 11 * |parts| - 1
  {
    if |parts| > 1 {
      JoinIsShort(parts[1..]);
    }
  }

  /** One to 4096 distinct positive 32-bit numbers. */
  predicate Selection(indexes: seq<nat>) {
    && 0 < |indexes| <= MAXIMUM_PARTS && Distinct(indexes)
    && forall i :: 0 <= i < |indexes| ==> 0 < indexes[i] <= MAXIMUM_UINT32
  }

  /** Whatever is accepted is a selection. */
  lemma AcceptedIsSelection(value: string, indexes: seq<nat>)
    requires Acceptable(value, indexes)
    ensures Selection(indexes)
  {
    var parts := Split(value, ',');
    forall i | 0 <= i < |indexes| ensures 0 < indexes[i] <= MAXIMUM_UINT32 {
      assert Index(parts[i]) == Some(indexes[i]);
    }
  }

  /** A value has at most one meaning. */
  lemma OneMeaning(value: string, a: seq<nat>, b: seq<nat>)
    requires Acceptable(value, a) && Acceptable(value, b)
    ensures a == b
  {
    var parts := Split(value, ',');
    forall i | 0 <= i < |a| ensures a[i] == b[i] {
      assert Index(parts[i]) == Some(a[i]) && Index(parts[i]) == Some(b[i]);
    }
  }

  /** Every selection, printed with commas, is accepted and read back as itself: neither limit stands in its way. */
  lemma SelectionRoundTrip(indexes: seq<nat>)
    requires Selection(indexes)
    ensures Acceptable(Join(Printed(indexes)), indexes)
  {
    var parts := Printed(indexes);
    forall i | 0 <= i < |parts|
      ensures NoComma(parts[i]) && 0 < |parts[i]| <= 10 && Index(parts[i]) == Some(indexes[i])
    {
      ValueOfDecimal(indexes[i]);
      DecimalIsShort(indexes[i]);
      assert parts[i] == Decimal(indexes[i]);
      assert forall k :: 0 <= k < |parts[i]| ==> IsDigit(parts[i][k]);
    }
    SplitOfJoin(parts);
    JoinIsShort(parts);
  }

  // ----- IEC sizes

  datatype Unit = B | KiB | MiB | GiB | TiB

  function Name(unit: Unit): string {
    match unit
    case B => "B"
    case KiB => "KiB"
    case MiB => "MiB"
    case GiB => "GiB"
    case TiB => "TiB"
  }

  function Multiplier(unit: Unit): (m: nat)
    ensures m > 0
  {
    match unit
    case B => 1
    case KiB => 1024
    case MiB => 1048576
    case GiB => 1073741824
    case TiB => 1099511627776
  }

  /** Length of the leading run of digits. */
  function DigitRun(s: string): (n: nat)
    ensures n <= |s| && AllDigits(s[..n]) && (n < |s| ==> !IsDigit(s[n]))
  {
    if s == "" || !IsDigit(s[0]) then 0 else
    var n := 1 + DigitRun(s[1..]);
    assert s[..n] == [s[0]] + s[1..][..n - 1];
    n
  }

  function UnitOf(s: string): (unit: Option<Unit>)
    ensures unit.Some? ==> Name(unit.value) == s
    ensures forall u :: Name(u) == s ==> unit == Some(u)
  {
    if s == "B" then Some(B) else if s == "KiB" then Some(KiB) else if s == "MiB" then Some(MiB)
    else if s == "GiB" then Some(GiB) else if s == "TiB" then Some(TiB) else None
  }

  function ParseIecSize(value: string): Option<nat> {
    var n := DigitRun(value);
    var unit := UnitOf(value[n..]);
    if n == 0 || unit.None? then None else
    var amount := ParseUint(value[..n], MAXIMUM_UINT64);
    if amount.None? || amount.value > MAXIMUM_UINT64 / Multiplier(unit.value) then None
    else Some(amount.value * Multiplier(unit.value))
  }

  /** The digits of a written size are found as written. */
  lemma {:induction false} DigitRunStops(digits: string, rest: string)
    requires AllDigits(digits) && (rest != "" ==> !IsDigit(rest[0]))
    ensures DigitRun(digits + rest) == |digits|
  {
    if digits == "" {
      assert digits + rest == rest;
    } else {
      assert (digits + rest)[1..] == digits[1..] + rest;
      DigitRunStops(digits[1..], rest);
    }
  }

  /** The guard by division is the overflow test of the product. */
  lemma DivisionGuard(amount: nat, unit: Unit)
    ensures amount <= MAXIMUM_UINT64 / Multiplier(unit) <==> amount * Multiplier(unit) <= MAXIMUM_UINT64
  {
    match unit
    case B =>
    case KiB =>
    case MiB =>
    case GiB =>
    case TiB =>
  }

  /** Digits and a unit mean their product, unless it needs more than 64 bits. */
  lemma SizeOf(digits: string, unit: Unit)
    requires digits != "" && AllDigits(digits)
    ensures var size := Value(digits) * Multiplier(unit);
      ParseIecSize(digits + Name(unit)) == if size <= MAXIMUM_UINT64 then Some(size) else None
  {
    var value := digits + Name(unit);
    DigitRunStops(digits, Name(unit));
    assert value[..|digits|] == digits && value[|digits|..] == Name(unit);
    DivisionGuard(Value(digits), unit);
    ProductGrows(Value(digits), unit);
  }

  lemma ProductGrows(amount: nat, unit: Unit)
    ensures amount <= amount * Multiplier(unit)
  {
  }

  /** Nothing else is a size. */
  lemma OnlySizes(value: string)
    requires ParseIecSize(value).Some?
    ensures exists digits, unit :: digits != "" && AllDigits(digits) && value == digits + Name(unit)
  {
    var n := DigitRun(value);
    assert value == value[..n] + Name(UnitOf(value[n..]).value);
  }

  lemma SizeInBytes(digits: string)
    requires digits != "" && AllDigits(digits) && Value(digits) <= MAXIMUM_UINT64
    ensures ParseIecSize(digits + "B") == Some(Value(digits))
  {
    SizeOf(digits, B);
    assert Value(digits) * Multiplier(B) == Value(digits);
  }

  /** The default memory is printed in bytes and read back unchanged, for every 64-bit amount. */
  lemma BytesRoundTrip(bytes: nat)
    requires bytes <= MAXIMUM_UINT64
    ensures ParseIecSize(Decimal(bytes) + "B") == Some(bytes)
  {
    ValueOfDecimal(bytes);
    SizeInBytes(Decimal(bytes));
  }
}
