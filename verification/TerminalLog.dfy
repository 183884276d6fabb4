/**
 * The durable output log of one agent terminal: every chunk the PTY produced is appended to a file that is cut
 * back to its newer half, behind a visible marker, whenever it outgrows a fixed limit.
 */
module TerminalLog {
  import opened Prelude

  newtype Byte = b: int | 0 <= b < 256
  type Bytes = seq<Byte>

  const LOG_FILE_MAX_BYTES: nat := 100 * 1024 * 1024

  function Encode(s: string): (b: Bytes)
    ensures |b| == |s|
  {
    seq(|s|, i requires 0 <= i < |s| => (s[i] as int % 256) as Byte)
  }

  function Decimal(n: nat): string {
    if n < 10 then [('0' as int + n) as char] else Decimal(n / 10) + [('0' as int + n % 10) as char]
  }

  const TRUNCATED := "\r\n" + "\U{1b}[33m[...log rotated, older history truncated to keep size <= "
  const BYTES := " bytes...]\U{1b}[0m" + "\r\n"

  /** The marker line that takes the place of the history that was cut away; it names the limit. */
  function Marker(limit: nat): Bytes {
    Encode(TRUNCATED) + Encode(Decimal(limit)) + Encode(BYTES)
  }

  /** The limit in force and the marker written in place of truncated history. */
  datatype Policy = Policy(limit: nat, marker: Bytes)

  function Configured(limit: nat): Policy {
    Policy(limit, Marker(limit))
  }

  /** A file over the limit keeps the marker and its newest limit/2 bytes. */
  function Rotated(p: Policy, file: Bytes): Bytes {
    if |file| <= p.limit then file else p.marker + file[|file| - p.limit / 2..]
  }

  /** The file after the chunks were appended one by one to an empty file. */
  function LogAfter(p: Policy, chunks: seq<Bytes>): Bytes {
    if chunks == [] then []
    else Rotated(p, LogAfter(p, chunks[..|chunks| - 1]) + chunks[|chunks| - 1])
  }

  /** `file` is the marker followed by a tail of `stream` that is at least half the limit long. */
  predicate MarkedTail(p: Policy, file: Bytes, stream: Bytes) {
    var m := |p.marker|;
    && m + p.limit / 2 <= |file| <= m + |stream|
    && file == p.marker + stream[|stream| - (|file| - m)..]
  }

  lemma LogAfterSnoc(p: Policy, chunks: seq<Bytes>, chunk: Bytes)
    ensures LogAfter(p, chunks + [chunk]) == Rotated(p, LogAfter(p, chunks) + chunk)
  {
    assert (chunks + [chunk])[..|chunks|] == chunks;
  }

  /** Appending to a marked tail, and rotating it again, leaves a marked tail: no old marker survives in the data. */
  lemma MarkedTailGrows(p: Policy, file: Bytes, stream: Bytes, chunk: Bytes)
    requires MarkedTail(p, file, stream)
    ensures MarkedTail(p, Rotated(p, file + chunk), stream + chunk)
  {
    var m := |p.marker|;
    var kept := |file| - m;
    var grown, longer := file + chunk, stream + chunk;
    assert grown == p.marker + longer[|stream| - kept..];
    if |grown| > p.limit {
      assert grown[|grown| - p.limit / 2..] == longer[|longer| - p.limit / 2..];
    }
  }

  /** The rotation that cuts a whole stream leaves a marked tail of it. */
  lemma FirstRotation(p: Policy, stream: Bytes)
    requires |stream| > p.limit
    ensures MarkedTail(p, Rotated(p, stream), stream)
  {
  }

  /** Up to the limit the log is the whole stream; beyond it, the marker and a tail of the stream. */
  lemma {:induction false} LogShape(p: Policy, chunks: seq<Bytes>)
    ensures |Flatten(chunks)| <= p.limit ==> LogAfter(p, chunks) == Flatten(chunks)
    ensures |Flatten(chunks)| > p.limit ==> MarkedTail(p, LogAfter(p, chunks), Flatten(chunks))
  {
    if chunks != [] {
      var front, last := chunks[..|chunks| - 1], chunks[|chunks| - 1];
      LogShape(p, front);
      assert chunks == front + [last];
      FlattenSnoc(front, last);
      if |Flatten(front)| > p.limit {
        MarkedTailGrows(p, LogAfter(p, front), Flatten(front), last);
      } else if |Flatten(chunks)| > p.limit {
        FirstRotation(p, Flatten(chunks));
      }
    }
  }

  /** The log never exceeds the limit after an append exactly when marker and kept half fit into it together. */
  lemma {:induction false} LogBounded(p: Policy)
    ensures (forall chunks: seq<Bytes> :: |LogAfter(p, chunks)| <= p.limit) <==> |p.marker| <= p.limit - p.limit / 2
  {
    if |p.marker| <= p.limit - p.limit / 2 {
      forall chunks: seq<Bytes> ensures |LogAfter(p, chunks)| <= p.limit {
      }
    } else {
      var flood: Bytes := seq(p.limit + 1, _ => 0);
      LogAfterSnoc(p, [], flood);
      assert LogAfter(p, []) + flood == flood;
      assert |LogAfter(p, [flood])| > p.limit;
    }
  }

  lemma {:induction false} DecimalIsShort(n: nat)
    ensures |Decimal(n)| <= 1 + n / 10
  {
    if n >= 10 {
      DecimalIsShort(n / 10);
    }
  }

  function DigitsValue(s: string): int {
    if s == "" then 0 else 10 * DigitsValue(s[..|s| - 1]) + (s[|s| - 1] as int - '0' as int)
  }

  /** The marker names its limit: the digits in it spell that number. */
  lemma {:induction false} DecimalNames(n: nat)
    ensures DigitsValue(Decimal(n)) == n && AllDigits(Decimal(n))
  {
    if n >= 10 {
      DecimalNames(n / 10);
      var s := Decimal(n);
      assert s[..|s| - 1] == Decimal(n / 10);
    }
  }

  /** The bytes read as characters. */
  function Decoded(b: Bytes): string {
    seq(|b|, i requires 0 <= i < |b| => b[i] as char)
  }

  lemma DigitsDecoded(digits: string)
    requires AllDigits(digits)
    ensures Decoded(Encode(digits)) == digits
  {
  }

  predicate AllDigits(s: string) {
    forall i :: 0 <= i < |s| ==> '0' <= s[i] <= '9'
  }

  /** A line of its own, and the number in it. */
  predicate LineNaming(b: Bytes, number: nat) {
    && |b| > 80 && b[0] == 13 && b[1] == 10 && b[|b| - 2] == 13 && b[|b| - 1] == 10
    && var digits := Decoded(b[64..|b| - 16]);
       AllDigits(digits) && DigitsValue(digits) == number
  }

  lemma NamedBetween(before: Bytes, digits: string, after: Bytes, number: nat)
    requires |before| == 64 && before[0] == 13 && before[1] == 10
    requires |after| == 16 && after[14] == 13 && after[15] == 10
    requires digits != "" && AllDigits(digits) && DigitsValue(digits) == number
    ensures LineNaming(before + Encode(digits) + after, number)
  {
    var b := before + Encode(digits) + after;
    assert b[64..|b| - 16] == Encode(digits);
    DigitsDecoded(digits);
  }

  /** The marker is a line of its own, and the number in it is the limit. */
  lemma MarkerNames(limit: nat)
    ensures LineNaming(Marker(limit), limit)
  {
    DecimalNames(limit);
    MarkerEnds();
    NamedBetween(Encode(TRUNCATED), Decimal(limit), Encode(BYTES), limit);
  }

  lemma MarkerEnds()
    ensures |TRUNCATED| == 64 && Encode(TRUNCATED)[0] == 13 && Encode(TRUNCATED)[1] == 10
    ensures |BYTES| == 16 && Encode(BYTES)[14] == 13 && Encode(BYTES)[15] == 10
  {
    assert TRUNCATED[0] == '\r' && TRUNCATED[1] == '\n';
    assert BYTES[14] == '\r' && BYTES[15] == '\n';
  }

  /** The marker fits for every limit of 256 bytes or more, so for the configured one. */
  lemma MarkerFits(limit: nat)
    requires limit >= 256
    ensures |Marker(limit)| <= limit - limit / 2
    ensures |Marker(LOG_FILE_MAX_BYTES)| <= LOG_FILE_MAX_BYTES - LOG_FILE_MAX_BYTES / 2
  {
    DecimalIsShort(limit);
    DecimalIsShort(LOG_FILE_MAX_BYTES);
  }

  /** With the marker that is written, no log ever exceeds a limit of 256 bytes or more, the configured one included. */
  lemma ConfiguredLogBounded(limit: nat, chunks: seq<Bytes>)
    requires limit >= 256
    ensures |LogAfter(Configured(limit), chunks)| <= limit
    ensures |LogAfter(Configured(LOG_FILE_MAX_BYTES), chunks)| <= LOG_FILE_MAX_BYTES
  {
    MarkerFits(limit);
    LogBounded(Configured(limit));
    LogBounded(Configured(LOG_FILE_MAX_BYTES));
  }

  /** Where a read of `size` bytes from position `at` ends: Python's `read(n)`, all that is left when n is negative. */
  function ReadEnd(length: nat, at: nat, size: int): (end: nat)
    requires at <= length
    ensures at <= end <= length
  {
    if size < 0 || length - at <= size then length else at + size
  }

  /** The log file of one session. */
  class LogFile {
    const policy: Policy
    var file: Option<Bytes>
    // every chunk appended since the file was created
    ghost var fed: seq<Bytes>

    ghost predicate Valid()
      reads this
    {
      Contents() == LogAfter(policy, fed)
    }

    function Contents(): Bytes
      reads this
    {
      if file.Some? then file.value else []
    }

    constructor (policy: Policy)
      ensures Valid() && this.policy == policy && file == None && fed == []
    {
      this.policy := policy;
      file := None;
      fed := [];
    }

    /** `_create_log_file`: an empty file, whatever was there before. */
    method Create()
      modifies this
      ensures Valid() && file == Some([]) && fed == []
    {
      file := Some([]);
      fed := [];
    }

    method Append(chunk: Bytes)
      requires Valid()
      modifies this
      ensures Valid() && file.Some? && fed == old(fed) + [chunk]
    {
      LogAfterSnoc(policy, fed, chunk);
      file := Some(Contents() + chunk);
      RotateIfNeeded();
      fed := fed + [chunk];
    }

    method RotateIfNeeded()
      modifies this`file
      ensures file == if old(file).None? then None else Some(Rotated(policy, old(file).value))
    {
      if file.None? {
        return;
      }
      var size := |file.value|;
      if size <= policy.limit {
        return;
      }
      var keepBytes := policy.limit / 2;
      var tail := file.value[size - keepBytes..];
      file := Some(policy.marker + tail);
    }

    /** `_replay_log`: the pieces, read in order, are the file; a piece size of zero reads nothing. */
    method Replay(chunkSize: int) returns (chunks: seq<Bytes>)
      ensures chunkSize != 0 ==> Flatten(chunks) == Contents()
      ensures chunkSize == 0 ==> chunks == []
      ensures forall c :: c in chunks ==> c != [] && (chunkSize > 0 ==> |c| <= chunkSize)
    {
      chunks := [];
      if file.None? {
        return;
      }
      var data := file.value;
      var at := 0;
      while true
        invariant at <= |data|
        invariant Flatten(chunks) == data[..at]
        invariant chunkSize == 0 ==> at == 0 && chunks == []
        invariant forall c :: c in chunks ==> c != [] && (chunkSize > 0 ==> |c| <= chunkSize)
        decreases |data| - at
      {
        var end := ReadEnd(|data|, at, chunkSize);
        var chunk := data[at..end];
        if chunk == [] {
          break;
        }
        FlattenSnoc(chunks, chunk);
        chunks := chunks + [chunk];
        assert data[..at] + chunk == data[..end];
        at := end;
      }
    }
  }
}
