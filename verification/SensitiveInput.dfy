/**
  Bounded secret input: the limiting stream, the read-all loop and the line-ending trim for
  stdin and files, and the byte loop of the terminal.
 */
module SensitiveInput {
  import opened Bytes
  import opened Readers

  const MAXIMUM_VALUE_BYTES: nat := 1024 * 1024
  const BUFFER: nat := 32 * 1024
  const TERMINAL_BUFFER: nat := 256
  const LF: Byte := 10
  const CR: Byte := 13

  datatype Result = Secret(value: seq<Byte>) | Empty | TooLarge | ReadError | InvalidRequest

  function TrimOneLineEnding(value: seq<Byte>): (r: seq<Byte>) {
    if value != [] && value[|value| - 1] == LF then
      var v := value[..|value| - 1];
      if v != [] && v[|v| - 1] == CR then v[..|v| - 1] else v
    else value
  }

  /** What is removed is nothing, LF or CRLF, and an LF is never kept unless another one followed it. */
  lemma TrimMeaning(value: seq<Byte>)
    ensures var t := TrimOneLineEnding(value);
      && (value == t || value == t + [LF] || value == t + [CR, LF])
      && (value == t <==> !([LF] == value[|value| - (if value == [] then 0 else 1)..]))
      && (value == t + [LF] ==> t == [] || t[|t| - 1] != CR)
  {
  }

  function NewSecret(value: seq<Byte>): Result {
    if value == [] then Empty else Secret(value)
  }

  /** The acceptance rule: one to `max` bytes. */
  function Bounded(value: seq<Byte>, max: nat): Result {
    if |value| > max then TooLarge else NewSecret(value)
  }

  datatype Status = Ok | Eof | Oversize

  /** The stream that refuses the first byte past its limit instead of truncating. */
  class SensitiveStream {
    var reader: Reader
    var remaining: nat
    var oversize: bool

    ghost predicate Valid()
      reads this
    {
      reader.Valid()
    }

    constructor (reader: Reader, max: nat)
      requires reader.Valid()
      ensures Valid() && this.reader == reader && remaining == max && !oversize
    {
      this.reader, remaining, oversize := reader, max, false;
    }

    method ReadBytes(len: nat) returns (bytes: seq<Byte>, status: Status)
      requires Valid() && len > 0
      modifies this
      ensures Valid() && remaining == old(remaining) - |bytes|
      ensures old(oversize) ==> oversize && status == Oversize && bytes == []
      ensures !old(oversize) && status != Oversize ==> !oversize && old(reader.Rest()) == bytes + reader.Rest()
      ensures status == Eof ==> reader.Rest() == []
      ensures status == Ok ==> bytes != []
      ensures !old(oversize) && status == Oversize ==> bytes == [] && |old(reader.Rest())| > old(remaining) == 0
    {
      if oversize {
        return [], Oversize;
      }
      if remaining == 0 {
        var (r, probe, eof) := Read(reader, 1);
        reader := r;
        if |probe| > 0 {
          oversize := true;
          return [], Oversize;
        }
        return [], Eof;
      }
      var size := if len > remaining then remaining else len;
      var (r, chunk, eof) := Read(reader, size);
      reader, remaining := r, remaining - |chunk|;
      return chunk, if eof then Eof else Ok;
    }
  }

  /** All bytes up to EOF, or None when there are more than `max`. */
  method ReadAllSensitive(stream: SensitiveStream, max: nat) returns (value: Option<seq<Byte>>)
    requires stream.Valid() && stream.remaining == max && !stream.oversize
    modifies stream
    ensures value == if |old(stream.reader.Rest())| <= max then Some(old(stream.reader.Rest())) else None
  {
    var all: seq<Byte> := [];
    ghost var whole := stream.reader.Rest();
    assert whole == [] + stream.reader.Rest();
    var done := false;
    while !done
      invariant stream.Valid() && !stream.oversize
      invariant whole == all + stream.reader.Rest() && |all| + stream.remaining == max
      invariant done ==> stream.reader.Rest() == []
      decreases !done, stream.remaining
    {
      var bytes, status := stream.ReadBytes(BUFFER);
      if status == Oversize {
        return None;
      }
      all := all + bytes;
      done := status == Eof;
    }
    assert whole == all;
    return Some(all);
  }

  /** Stdin: accepted exactly when one to `max` bytes remain after one line ending, however the bytes arrive. */
  method SensitiveStdin(data: seq<Byte>, split: nat -> nat, eager: bool, max: nat) returns (r: Result)
    ensures r == if max == 0 || max > MAXIMUM_VALUE_BYTES then InvalidRequest else Bounded(TrimOneLineEnding(data), max)
  {
    if max == 0 || max > MAXIMUM_VALUE_BYTES {
      return InvalidRequest;
    }
    var reader := Reader(data, 0, split, eager);
    assert reader.Rest() == data;
    var stream := new SensitiveStream(reader, max + 2);
    var value := ReadAllSensitive(stream, max + 2);
    if value.None? {
      return TooLarge;
    }
    var trimmed := TrimOneLineEnding(value.value);
    if |trimmed| > max {
      return TooLarge;
    }
    return NewSecret(trimmed);
  }

  /** A file: exact bytes, refused by its reported size or by what it really holds. */
  method SensitiveFile(data: seq<Byte>, reported: nat, split: nat -> nat, eager: bool, max: nat) returns (r: Result)
    ensures r == if max == 0 || max > MAXIMUM_VALUE_BYTES then InvalidRequest
                 else if reported > max then TooLarge else Bounded(data, max)
  {
    if max == 0 || max > MAXIMUM_VALUE_BYTES {
      return InvalidRequest;
    }
    if reported > max {
      return TooLarge;
    }
    var reader := Reader(data, 0, split, eager);
    assert reader.Rest() == data;
    var stream := new SensitiveStream(reader, max);
    var value := ReadAllSensitive(stream, max);
    if value.None? {
      return TooLarge;
    }
    return NewSecret(value.value);
  }

  // ----- the terminal

  /** Index of the first LF, or the length when there is none. */
  function LineLength(data: seq<Byte>): (n: nat)
    ensures n <= |data| && (forall i :: 0 <= i < n ==> data[i] != LF) && (n < |data| ==> data[n] == LF)
  {
    if data == [] || data[0] == LF then 0 else 1 + LineLength(data[1..])
  }

  function DropCr(line: seq<Byte>): seq<Byte> {
    if line != [] && line[|line| - 1] == CR then line[..|line| - 1] else line
  }

  /** The terminal rule: the raw line, its CR included, must fit. */
  function TerminalRule(data: seq<Byte>, max: nat): Result {
    var n := LineLength(data);
    if n > max then TooLarge else if n == |data| then ReadError else NewSecret(DropCr(data[..n]))
  }

  /** The first line ends where it ends in the part after an LF-free prefix. */
  lemma {:induction false} LinePrefix(a: seq<Byte>, b: seq<Byte>)
    requires LF !in a
    ensures LineLength(a + b) == |a| + LineLength(b)
  {
    if a == [] {
      assert a + b == b;
    } else {
      assert (a + b)[1..] == a[1..] + b;
      LinePrefix(a[1..], b);
    }
  }

  /** A line that ends inside the first part does not depend on the second. */
  lemma {:induction false} LineInside(a: seq<Byte>, b: seq<Byte>)
    requires LF in a
    ensures LineLength(a + b) == LineLength(a) < |a|
  {
    if a[0] != LF {
      assert (a + b)[1..] == a[1..] + b;
      LineInside(a[1..], b);
    }
  }

  /** What one buffer of terminal bytes decides, given the value read before it. */
  function Decision(value: seq<Byte>, buffer: seq<Byte>, max: nat): Option<Result> {
    var n := LineLength(buffer);
    if |value| + n > max then Some(TooLarge)
    else if n < |buffer| then Some(NewSecret(DropCr(value + buffer[..n])))
    else None
  }

  /** A buffer that decides the line decides it as the whole input would; otherwise it holds no line end. */
  lemma BufferDecides(value: seq<Byte>, buffer: seq<Byte>, rest: seq<Byte>, max: nat)
    requires LF !in value
    ensures var decision := Decision(value, buffer, max);
      && (decision.Some? ==> decision.value == TerminalRule(value + (buffer + rest), max))
      && (decision.None? ==> LF !in buffer && |value| + |buffer| <= max)
  {
    var data := value + (buffer + rest);
    LinePrefix(value, buffer + rest);
    if LF in buffer {
      LineInside(buffer, rest);
      assert data[..LineLength(data)] == value + buffer[..LineLength(buffer)];
    } else {
      LinePrefix(buffer, rest);
      LinePrefix(buffer, []);
      assert buffer + [] == buffer;
    }
  }

  method TakeBuffer(value: seq<Byte>, buffer: seq<Byte>, max: nat) returns (outcome: Option<Result>, grown: seq<Byte>)
    requires |value| <= max
    ensures outcome == Decision(value, buffer, max)
    ensures outcome == None ==> grown == value + buffer
  {
    grown := value;
    var i := 0;
    while i < |buffer|
      invariant 0 <= i <= LineLength(buffer)
      invariant grown == value + buffer[..i] && |grown| <= max
    {
      if buffer[i] == LF {
        return Some(NewSecret(DropCr(grown))), grown;
      }
      if |grown| >= max {
        return Some(TooLarge), grown;
      }
      grown := grown + [buffer[i]];
      i := i + 1;
    }
    return None, grown;
  }

  /** Input that ends before its line does is an error. */
  lemma UnendedLine(value: seq<Byte>, max: nat)
    requires LF !in value && |value| <= max
    ensures TerminalRule(value, max) == ReadError
  {
    LinePrefix(value, []);
    assert value + [] == value;
  }

  /** The value read so far is the start of the data, short of a line end; the reader has the rest. */
  ghost predicate Pending(data: seq<Byte>, value: seq<Byte>, rest: seq<Byte>, max: nat) {
    data == value + rest && LF !in value && |value| <= max
  }

  lemma PollStep(data: seq<Byte>, value: seq<Byte>, buffer: seq<Byte>, rest: seq<Byte>, max: nat)
    requires Pending(data, value, buffer + rest, max)
    ensures var decision := Decision(value, buffer, max);
      && (decision.Some? ==> decision.value == TerminalRule(data, max))
      && (decision.None? ==> Pending(data, value + buffer, rest, max))
  {
    BufferDecides(value, buffer, rest, max);
    assert value + (buffer + rest) == (value + buffer) + rest;
  }

  method PollTerminalLine(data: seq<Byte>, split: nat -> nat, max: nat) returns (r: Result)
    ensures r == TerminalRule(data, max)
  {
    var reader := Reader(data, 0, split, false);
    var value: seq<Byte> := [];
    assert Pending(data, value, reader.Rest(), max);
    while true
      invariant reader.Valid() && Pending(data, value, reader.Rest(), max)
      decreases |reader.Rest()|
    {
      var (next, buffer, _) := Read(reader, TERMINAL_BUFFER);
      if |buffer| == 0 {
        assert data == value;
        UnendedLine(value, max);
        return ReadError;
      }
      PollStep(data, value, buffer, next.Rest(), max);
      var outcome, grown := TakeBuffer(value, buffer, max);
      if outcome.Some? {
        return outcome.value;
      }
      reader, value := next, grown;
    }
  }

  /** For one LF-terminated line terminal and stdin agree, except for a value of `max` bytes with CRLF. */
  lemma TerminalAgreesExactly(line: seq<Byte>, max: nat)
    requires LF !in line && max > 0
    ensures TerminalRule(line + [LF], max) == Bounded(TrimOneLineEnding(line + [LF]), max) <==>
            !(|line| == max + 1 && line[max] == CR)
    ensures |line| == max + 1 && line[max] == CR ==>
            TerminalRule(line + [LF], max) == TooLarge &&
            Bounded(TrimOneLineEnding(line + [LF]), max) == Secret(line[..max])
  {
    var data := line + [LF];
    LinePrefix(line, [LF]);
    assert data[..|line|] == line;
  }
}
