/**
 * `tailRead` (src/server/routes/live.ts): the last lines of a session
 * transcript without reading the whole file. The file is scanned backwards
 * in 64 KiB chunks for newline bytes until `lineCount` of them are found;
 * everything after the last one found is decoded, split on `'\n'` and kept
 * line by line when it is not blank. The file is its bytes (`None` when
 * opening or reading it throws); UTF-8 decoding is the oracle `decode`,
 * applied to each piece between newline bytes (a newline byte never occurs
 * inside a multi-byte UTF-8 sequence, so splitting before or after decoding
 * gives the same pieces).
 */
module Tail {
  import opened Common
  import Text

  const CHUNK: nat := 65536
  const NEWLINE: byte := 10

  predicate IsNewline(b: byte) {
    b == NEWLINE
  }

  /** Number of newline bytes in `s`. */
  function Newlines(s: seq<byte>): nat {
    Count(s, IsNewline)
  }

  /** Counting newlines from position `p` on: the byte at `p`, then the rest. */
  lemma NewlinesFront(s: seq<byte>, p: nat)
    requires p < |s|
    ensures Newlines(s[p..]) == Newlines(s[p + 1..]) + (if s[p] == NEWLINE then 1 else 0)
  {
    assert s[p..] == [s[p]] + s[p + 1..];
    CountAppend([s[p]], s[p + 1..], IsNewline);
    assert [s[p]][..0] == [];
  }

  /** Newlines of two consecutive stretches add up. */
  lemma NewlinesSplit(s: seq<byte>, p: nat, q: nat)
    requires p <= q <= |s|
    ensures Newlines(s[p..]) == Newlines(s[p..q]) + Newlines(s[q..])
  {
    assert s[p..] == s[p..q] + s[q..];
    CountAppend(s[p..q], s[q..], IsNewline);
  }

  /** `c` is one past the `n`-th newline byte counted from the end of `buf`. */
  ghost predicate IsCutoff(buf: seq<byte>, n: nat, c: nat) {
    0 < c <= |buf| && buf[c - 1] == NEWLINE && Newlines(buf[c - 1..]) == n
  }

  /** There is at most one such position for a given count. */
  lemma CutoffUnique(buf: seq<byte>, n: nat, c1: nat, c2: nat)
    requires IsCutoff(buf, n, c1) && IsCutoff(buf, n, c2)
    ensures c1 == c2
  {
    if c1 < c2 {
      NewlinesSplit(buf, c1 - 1, c2 - 1);
      NewlinesFront(buf[c1 - 1..c2 - 1], 0);
    } else if c2 < c1 {
      NewlinesSplit(buf, c2 - 1, c1 - 1);
      NewlinesFront(buf[c2 - 1..c1 - 1], 0);
    }
  }

  /**
   * The cutoff as a scan over the whole buffer at once: one past the `n`-th
   * newline from the end, or `None` when the buffer holds fewer than `n`.
   */
  function NthNewlineFromEnd(buf: seq<byte>, n: nat): (c: Option<nat>)
    requires n > 0
    ensures c.Some? <==> n <= Newlines(buf)
    ensures c.Some? ==> IsCutoff(buf, n, c.value)
  {
    if buf == [] then None
    else
      var front := buf[..|buf| - 1];
      assert buf == front + [buf[|buf| - 1]];
      var r: Option<nat> :=
        if buf[|buf| - 1] != NEWLINE then NthNewlineFromEnd(front, n)
        else if n == 1 then Some(|buf|)
        else NthNewlineFromEnd(front, n - 1);
      if r.Some? then
        assert buf[r.value - 1..] == front[r.value - 1..] + [buf[|buf| - 1]];
        assert buf[r.value - 1..][..|buf[r.value - 1..]| - 1] == front[r.value - 1..];
        r
      else
        r
  }

  /**
   * Where a backward scan in `chunk`-byte reads from `end` stops once it has
   * read byte `p`: the start of the read that holds `p`, which lies a whole
   * number of chunks before `end`, or at the start of the buffer.
   */
  function ChunkStart(end: nat, p: nat, chunk: nat): (s: nat)
    requires p < end && chunk > 0
    ensures s <= p < s + chunk
    ensures s == 0 || WholeChunks(end - s, chunk)
    decreases end
  {
    if end <= chunk then 0
    else if end - chunk <= p then
      assert WholeChunks(end - (end - chunk), chunk) by { assert WholeChunks(0, chunk); }
      end - chunk
    else
      ChunkStart(end - chunk, p, chunk)
  }

  /** `d` is a whole number of `chunk`s. */
  predicate WholeChunks(d: nat, chunk: nat)
    requires chunk > 0
    decreases d
  {
    d == 0 || (d >= chunk && WholeChunks(d - chunk, chunk))
  }

  /** Below `end`, a scan from `size` stops where a scan from `end` would. */
  ghost predicate ScanAgrees(size: nat, end: nat, chunk: nat)
    requires end <= size && chunk > 0
  {
    forall p :: 0 <= p < end ==> ChunkStart(size, p, chunk) == ChunkStart(end, p, chunk)
  }

  /** One more full chunk read from `end`. */
  lemma ScanAgreesNext(size: nat, end: nat, chunk: nat)
    requires end <= size && chunk > 0 && chunk < end
    requires ScanAgrees(size, end, chunk)
    ensures ScanAgrees(size, end - chunk, chunk)
  {
  }

  /** A byte in the read that ends at `end` stops the scan at the start of that read. */
  lemma ScanAgreesFound(size: nat, end: nat, chunk: nat, p: nat)
    requires end <= size && chunk > 0
    requires ScanAgrees(size, end, chunk)
    requires (if chunk < end then end - chunk else 0) <= p < end
    ensures ChunkStart(size, p, chunk) == if chunk < end then end - chunk else 0
  {
  }

  /** Where the scan of `tailRead` stops: nothing is read for 0 lines, all of a file with too few newlines. */
  function ScanStart(buf: seq<byte>, n: nat, chunk: nat): (s: nat)
    requires chunk > 0
    ensures s <= |buf|
  {
    if n == 0 then |buf|
    else if Newlines(buf) < n then 0
    else ChunkStart(|buf|, NthNewlineFromEnd(buf, n).value - 1, chunk)
  }

  /** How many newlines the scan finds: `n`, or all of them when there are fewer. */
  function ScanFound(buf: seq<byte>, n: nat): nat {
    if Newlines(buf) < n then Newlines(buf) else n
  }

  /**
   * Phase 1 of `tailRead`: read the buffer backwards `chunk` bytes at a time
   * and count newline bytes from the end until `lineCount` are found. Whatever
   * the chunk size, the cutoff is the whole-buffer one; when there are fewer
   * newlines the cutoff stays at the end and the whole buffer was scanned.
   * The scan stops at the start of the read that holds the cutoff newline.
   */
  method ScanCutoff(buf: seq<byte>, lineCount: nat, chunk: nat) returns (cutoffPos: nat, linesFound: nat, remaining: nat)
    requires chunk > 0
    ensures remaining <= |buf| && linesFound <= lineCount
    ensures lineCount == 0 ==> cutoffPos == |buf| && linesFound == 0 && remaining == |buf|
    ensures 0 < lineCount <= Newlines(buf) ==>
              && linesFound == lineCount
              && Some(cutoffPos) == NthNewlineFromEnd(buf, lineCount)
              && remaining < cutoffPos <= remaining + chunk
    ensures 0 < lineCount && Newlines(buf) < lineCount ==>
              cutoffPos == |buf| && linesFound == Newlines(buf) && remaining == 0
    ensures remaining == ScanStart(buf, lineCount, chunk) && linesFound == ScanFound(buf, lineCount)
  {
    remaining := |buf|;
    linesFound := 0;
    cutoffPos := |buf|;
    while remaining > 0 && linesFound < lineCount
      invariant remaining <= |buf| && linesFound <= lineCount
      invariant lineCount == 0 ==> remaining == |buf| && cutoffPos == |buf|
      invariant linesFound < lineCount ==> linesFound == Newlines(buf[remaining..]) && cutoffPos == |buf|
      invariant linesFound < lineCount ==> ScanAgrees(|buf|, remaining, chunk)
      invariant 0 < lineCount == linesFound ==> StoppedAt(buf, lineCount, chunk, cutoffPos, remaining)
      decreases remaining
    {
      var readSize := if chunk < remaining then chunk else remaining;
      ghost var end := remaining;
      if chunk < remaining {
        ScanAgreesNext(|buf|, remaining, chunk);
      }
      remaining := remaining - readSize;
      var found;
      linesFound, found := ScanRead(buf, remaining, readSize, lineCount, linesFound);
      if found.Some? {
        cutoffPos := found.value + 1;
        ScanAgreesFound(|buf|, end, chunk, found.value);
      }
    }
    ScanEnds(buf, lineCount, chunk, cutoffPos, linesFound, remaining);
  }

  /** The scan found the `n`-th newline from the end just before `c`, in the read starting at `remaining`. */
  ghost predicate StoppedAt(buf: seq<byte>, n: nat, chunk: nat, c: nat, remaining: nat)
    requires chunk > 0
  {
    IsCutoff(buf, n, c) && remaining == ChunkStart(|buf|, c - 1, chunk)
  }

  /** How the scan's exit state meets the contract of `ScanCutoff`. */
  lemma ScanEnds(buf: seq<byte>, lineCount: nat, chunk: nat, cutoffPos: nat, linesFound: nat, remaining: nat)
    requires chunk > 0 && remaining <= |buf| && linesFound <= lineCount
    requires !(remaining > 0 && linesFound < lineCount)
    requires lineCount == 0 ==> remaining == |buf| && cutoffPos == |buf|
    requires linesFound < lineCount ==> linesFound == Newlines(buf[remaining..]) && cutoffPos == |buf|
    requires 0 < lineCount == linesFound ==> StoppedAt(buf, lineCount, chunk, cutoffPos, remaining)
    ensures lineCount == 0 ==> cutoffPos == |buf| && linesFound == 0 && remaining == |buf|
    ensures 0 < lineCount <= Newlines(buf) ==>
              && linesFound == lineCount
              && Some(cutoffPos) == NthNewlineFromEnd(buf, lineCount)
              && remaining < cutoffPos <= remaining + chunk
    ensures 0 < lineCount && Newlines(buf) < lineCount ==>
              cutoffPos == |buf| && linesFound == Newlines(buf) && remaining == 0
    ensures remaining == ScanStart(buf, lineCount, chunk) && linesFound == ScanFound(buf, lineCount)
  {
    assert buf[0..] == buf;
    if 0 < lineCount <= Newlines(buf) {
      CutoffUnique(buf, lineCount, cutoffPos, NthNewlineFromEnd(buf, lineCount).value);
    } else if 0 < lineCount && cutoffPos > 0 && linesFound == lineCount {
      NewlinesSplit(buf, 0, cutoffPos - 1);
    }
  }

  /**
   * The inner loop of phase 1: the bytes of one read, from its last to its
   * first, counting newlines; it stops at the newline that makes the count
   * reach `lineCount` and reports its position.
   */
  method ScanRead(buf: seq<byte>, start: nat, readSize: nat, lineCount: nat, found0: nat)
    returns (linesFound: nat, found: Option<nat>)
    requires start + readSize <= |buf| && found0 < lineCount
    requires found0 == Newlines(buf[start + readSize..])
    ensures found.None? ==> linesFound < lineCount && linesFound == Newlines(buf[start..])
    ensures found.Some? ==>
              && linesFound == lineCount && start <= found.value < start + readSize
              && IsCutoff(buf, lineCount, found.value + 1)
  {
    linesFound := found0;
    found := None;
    var i := readSize;
    while i > 0
      invariant 0 <= i <= readSize && linesFound < lineCount
      invariant linesFound == Newlines(buf[start + i..])
      decreases i
    {
      i := i - 1;
      NewlinesFront(buf, start + i);
      if buf[start + i] == NEWLINE {
        linesFound := linesFound + 1;
        if linesFound == lineCount {
          found := Some(start + i);
          return;
        }
      }
    }
  }

  /** A line `.trim()` leaves non-empty. */
  predicate NonBlank(line: string) {
    Text.Trim(line) != ""
  }

  /** Each piece decoded as UTF-8. */
  function Decoded(pieces: seq<seq<byte>>, decode: seq<byte> -> string): (r: seq<string>)
    ensures |r| == |pieces| && forall i :: 0 <= i < |r| ==> r[i] == decode(pieces[i])
  {
    seq(|pieces|, i requires 0 <= i < |pieces| => decode(pieces[i]))
  }

  /** `content.toString('utf-8').split('\n').filter(l => l.trim())` on the bytes from `c` on. */
  function LinesFrom(buf: seq<byte>, c: nat, decode: seq<byte> -> string): seq<string>
    requires c <= |buf|
  {
    Filter(Decoded(Text.Split(buf[c..], NEWLINE), decode), NonBlank)
  }

  /** The last `n` elements of `s` (all of them when there are fewer). */
  function LastN<T>(s: seq<T>, n: nat): (r: seq<T>)
    ensures |r| == if |s| < n then |s| else n
  {
    if |s| <= n then s else s[|s| - n..]
  }

  /**
   * What `tailRead` returns as lines for a non-empty file, as written: the
   * lines after the `n`-th newline from the end, and none at all when the
   * file holds fewer than `n` newlines (the cutoff then stays at the end).
   */
  function TailLines(buf: seq<byte>, n: nat, decode: seq<byte> -> string): seq<string> {
    if n > 0 && NthNewlineFromEnd(buf, n).Some? then LinesFrom(buf, NthNewlineFromEnd(buf, n).value, decode)
    else LinesFrom(buf, |buf|, decode)
  }

  /** The same with the cutoff moved to the start of the file when there are fewer than `n` newlines. */
  function TailLinesFixed(buf: seq<byte>, n: nat, decode: seq<byte> -> string): seq<string> {
    if n > 0 && NthNewlineFromEnd(buf, n).Some? then LinesFrom(buf, NthNewlineFromEnd(buf, n).value, decode)
    else if n > 0 then LinesFrom(buf, 0, decode)
    else LinesFrom(buf, |buf|, decode)
  }

  /** Splitting on newlines gives one piece more than there are newlines. */
  lemma {:induction false} SplitCount(s: seq<byte>)
    ensures |Text.Split(s, NEWLINE)| == Newlines(s) + 1
    decreases |s|
  {
    if NEWLINE !in s {
      NoNewlines(s);
    } else {
      var i := Text.IndexOf(s, NEWLINE);
      assert s == s[..i] + [NEWLINE] + s[i + 1..];
      Text.SplitAround(s[..i], NEWLINE, s[i + 1..]);
      NoNewlines(s[..i]);
      Text.FirstPiece(s[..i], NEWLINE);
      SplitCount(s[i + 1..]);
      NewlinesSplit(s, 0, i);
      NewlinesFront(s, i);
      assert s[0..] == s && s[0..i] == s[..i];
    }
  }

  lemma {:induction false} NoNewlines(s: seq<byte>)
    requires NEWLINE !in s
    ensures Newlines(s) == 0
  {
    if s != [] {
      assert NEWLINE !in s[..|s| - 1];
      NoNewlines(s[..|s| - 1]);
    }
  }

  /**
   * After the `n`-th newline from the end, the pieces are the last `n`
   * newline-separated pieces of the whole file.
   */
  lemma PiecesAfterCutoff(buf: seq<byte>, n: nat, c: nat)
    requires n > 0 && IsCutoff(buf, n, c)
    ensures Text.Split(buf[c..], NEWLINE) == LastN(Text.Split(buf, NEWLINE), n)
  {
    assert buf == buf[..c - 1] + [NEWLINE] + buf[c..];
    Text.SplitAround(buf[..c - 1], NEWLINE, buf[c..]);
    NewlinesFront(buf, c - 1);
    SplitCount(buf[c..]);
    SplitCount(buf[..c - 1]);
  }

  /**
   * The evidently intended result: the non-blank lines among the last `n`
   * newline-separated pieces of the whole file, for a file of any length.
   */
  lemma TailLinesFixedAreLastPieces(buf: seq<byte>, n: nat, decode: seq<byte> -> string)
    requires n > 0
    ensures TailLinesFixed(buf, n, decode) == Filter(Decoded(LastN(Text.Split(buf, NEWLINE), n), decode), NonBlank)
  {
    var c := NthNewlineFromEnd(buf, n);
    if c.Some? {
      PiecesAfterCutoff(buf, n, c.value);
    } else {
      SplitCount(buf);
      assert buf[0..] == buf;
    }
  }

  /**
   * As written, a file with fewer than `n` newlines gives at most the one
   * empty piece after its end, so no lines at all whatever it holds.
   */
  lemma TailLinesShortFile(buf: seq<byte>, n: nat, decode: seq<byte> -> string)
    requires 0 < n && Newlines(buf) < n
    ensures TailLines(buf, n, decode) == Filter([decode([])], NonBlank)
  {
    assert buf[|buf|..] == [];
    assert Text.Split([], NEWLINE) == [[]];
    assert Decoded([[]], decode) == [decode([])];
  }

  /** As written, a file with at least `n` newlines gives the same lines as the corrected scan. */
  lemma TailLinesAgreeWhenEnoughNewlines(buf: seq<byte>, n: nat, decode: seq<byte> -> string)
    requires 0 < n <= Newlines(buf)
    ensures TailLines(buf, n, decode) == TailLinesFixed(buf, n, decode)
  {
  }

  /**
   * As written, a one-line file without a trailing newline gives no lines at
   * all for a request of 500, while the corrected scan gives that line.
   */
  lemma ShortFileLosesItsLines(decode: seq<byte> -> string)
    requires decode([]) == "" && decode([97]) == "a"
    ensures TailLines([97], 500, decode) == []
    ensures TailLinesFixed([97], 500, decode) == ["a"]
  {
    ShortFileAsWritten(decode);
    ShortFileFixed(decode);
  }

  /** As written, any file with fewer than `n` newlines gives no lines (the piece after its end decodes to `""`). */
  lemma ShortFileNoLines(buf: seq<byte>, n: nat, decode: seq<byte> -> string)
    requires 0 < n && Newlines(buf) < n && decode([]) == ""
    ensures TailLines(buf, n, decode) == []
  {
    TailLinesShortFile(buf, n, decode);
    assert Text.Trim("") == "";
    FilterOne("");
  }

  /** The as-written scan keeps only the empty piece after the end of a file without newlines. */
  lemma ShortFileAsWritten(decode: seq<byte> -> string)
    requires decode([]) == ""
    ensures TailLines([97], 500, decode) == []
  {
    var buf: seq<byte> := [97];
    assert Newlines(buf) == 0 by {
      assert NEWLINE !in buf;
      NoNewlines(buf);
    }
    TailLinesShortFile(buf, 500, decode);
    assert Text.Trim("") == "";
    FilterOne("");
  }

  /** The corrected scan keeps the one line of a file without newlines. */
  lemma ShortFileFixed(decode: seq<byte> -> string)
    requires decode([97]) == "a"
    ensures TailLinesFixed([97], 500, decode) == ["a"]
  {
    assert NonBlank("a") by {
      assert !Text.IsJsSpace('a');
      assert Text.TrimStart("a") == "a";
    }
    SinglePieceFixed([97], 500, decode);
  }

  /** With the corrected scan, a non-blank file without newlines is one line. */
  lemma SinglePieceFixed(buf: seq<byte>, n: nat, decode: seq<byte> -> string)
    requires n > 0 && NEWLINE !in buf && NonBlank(decode(buf))
    ensures TailLinesFixed(buf, n, decode) == [decode(buf)]
  {
    var pieces := Text.Split(buf, NEWLINE);
    assert pieces == [buf] by {
      Text.FirstPiece(buf, NEWLINE);
      SplitCount(buf);
    }
    var lines := Decoded(LastN(pieces, n), decode);
    assert lines == [decode(buf)] by {
      assert LastN(pieces, n) == [buf];
    }
    assert Filter(lines, NonBlank) == [decode(buf)] by {
      FilterOne(decode(buf));
    }
    TailLinesFixedAreLastPieces(buf, n, decode);
  }

  /** A single piece survives the non-blank filter exactly when it is not blank. */
  lemma FilterOne(x: string)
    ensures NonBlank(x) ==> Filter([x], NonBlank) == [x]
    ensures !NonBlank(x) ==> Filter([x], NonBlank) == []
  {
    FilterSnoc([], x, NonBlank);
    assert [x] == [] + [x];
  }

  /** The lines `tailRead` returns for a file's bytes (`None` when it cannot be read). */
  function TailOf(file: Option<seq<byte>>, n: nat, decode: seq<byte> -> string): seq<string> {
    if file.None? || file.value == [] then [] else TailLines(file.value, n, decode)
  }

  /** The lines the corrected `tailRead` returns for a file's bytes. */
  function TailOfFixed(file: Option<seq<byte>>, n: nat, decode: seq<byte> -> string): seq<string> {
    if file.None? || file.value == [] then [] else TailLinesFixed(file.value, n, decode)
  }

  /** The `totalLines` reported with `lines`: 0 for an unreadable or empty file, otherwise the estimate, raised to the lines returned. */
  function TotalOf(file: Option<seq<byte>>, n: nat, lines: seq<string>): nat {
    if file.None? || file.value == [] then 0 else Max(EstimateOf(file.value, n), |lines|)
  }

  /** What `tailRead` returns. */
  datatype TailResult = TailResult(lines: seq<string>, totalLines: nat)

  /** `Math.round(a / b)` for non-negative `a` and positive `b`: the nearest integer, halves rounded up. */
  function RoundRatio(a: nat, b: nat): (r: nat)
    requires b > 0
    ensures r * (2 * b) <= 2 * a + b < (r + 1) * (2 * b)
  {
    (2 * a + b) / (2 * b)
  }

  lemma MulCancel(x: int, y: int, m: int)
    requires m > 0 && x * m < y * m
    ensures x < y
  {
  }

  /** A ratio that is a whole number rounds to itself. */
  lemma RoundWhole(k: nat, b: nat)
    requires b > 0
    ensures RoundRatio(k * b, b) == k
  {
    var r := RoundRatio(k * b, b);
    assert (k + 1) * (2 * b) == 2 * (k * b) + 2 * b;
    MulCancel(r, k + 1, 2 * b);
    assert (r + 1) * (2 * b) == r * (2 * b) + 2 * b;
    assert k * (2 * b) == 2 * (k * b);
    MulCancel(k, r + 1, 2 * b);
  }

  /**
   * Phase 2 of `tailRead`: `Math.round(linesFound / scannedBytes * fileSize)`,
   * with the ratio kept exact, and 0 when nothing was scanned.
   */
  function Estimate(linesFound: nat, fileSize: nat, scanned: nat): nat {
    if scanned > 0 then RoundRatio(linesFound * fileSize, scanned) else 0
  }

  function Max(a: nat, b: nat): nat {
    if a < b then b else a
  }

  /** The estimate `tailRead` reports for a non-empty buffer: found newlines scaled by the bytes scanned. */
  function EstimateOf(buf: seq<byte>, n: nat): nat {
    Estimate(ScanFound(buf, n), |buf|, |buf| - ScanStart(buf, n, CHUNK))
  }

  /** A file with fewer newlines than asked for is scanned whole, so the estimate is its newline count. */
  lemma WholeScanEstimate(buf: seq<byte>, n: nat)
    requires 0 < |buf| && 0 < n && Newlines(buf) < n
    ensures EstimateOf(buf, n) == Newlines(buf)
  {
    assert ScanStart(buf, n, CHUNK) == 0 && ScanFound(buf, n) == Newlines(buf);
    RoundWhole(Newlines(buf), |buf|);
  }

  /**
   * A file no larger than one read is scanned whole once a line is asked
   * for, so the estimate is the number of newlines found.
   */
  lemma SmallFileEstimate(buf: seq<byte>, n: nat)
    requires 0 < |buf| <= CHUNK && n > 0
    ensures EstimateOf(buf, n) == ScanFound(buf, n)
  {
    assert ScanStart(buf, n, CHUNK) == 0;
    RoundWhole(ScanFound(buf, n), |buf|);
  }

  /**
   * `tailRead(path, lineCount)`, as written: nothing for an unreadable or
   * empty file; otherwise the lines after the scanned cutoff, and a line
   * count that is at least the number of lines returned, and exactly the
   * file's newline count when the scan had to cover the whole file.
   */
  method TailRead(file: Option<seq<byte>>, lineCount: nat, decode: seq<byte> -> string) returns (r: TailResult)
    ensures file.None? || file == Some([]) ==> r == TailResult([], 0)
    ensures r.lines == TailOf(file, lineCount, decode)
    ensures r.totalLines == TotalOf(file, lineCount, r.lines)
    ensures r.totalLines >= |r.lines|
    ensures file.Some? && file.value != [] && 0 < lineCount && Newlines(file.value) < lineCount ==>
              r.totalLines == Max(Newlines(file.value), |r.lines|)
  {
    if file.None? || file.value == [] {
      return TailResult([], 0);
    }
    var buf := file.value;
    var cutoffPos, linesFound, remaining := ScanCutoff(buf, lineCount, CHUNK);
    var estimate := Estimate(linesFound, |buf|, |buf| - remaining);
    assert estimate == EstimateOf(buf, lineCount);
    var lines := LinesFrom(buf, cutoffPos, decode);
    r := TailResult(lines, Max(estimate, |lines|));
    if 0 < lineCount && Newlines(buf) < lineCount {
      WholeScanEstimate(buf, lineCount);
    }
  }

  /**
   * The corrected `tailRead`: the same scan, but a file with fewer than
   * `lineCount` newlines is read from its start.
   */
  method TailReadFixed(file: Option<seq<byte>>, lineCount: nat, decode: seq<byte> -> string) returns (r: TailResult)
    ensures file.None? || file == Some([]) ==> r == TailResult([], 0)
    ensures r.lines == TailOfFixed(file, lineCount, decode)
    ensures r.totalLines == TotalOf(file, lineCount, r.lines)
    ensures r.totalLines >= |r.lines|
    ensures file.Some? && file.value != [] && 0 < lineCount && Newlines(file.value) < lineCount ==>
              r.totalLines == Max(Newlines(file.value), |r.lines|)
  {
    if file.None? || file.value == [] {
      return TailResult([], 0);
    }
    var buf := file.value;
    var cutoffPos, linesFound, remaining := ScanCutoff(buf, lineCount, CHUNK);
    if 0 < lineCount && linesFound < lineCount {
      cutoffPos := 0;
    }
    var estimate := Estimate(linesFound, |buf|, |buf| - remaining);
    assert estimate == EstimateOf(buf, lineCount);
    var lines := LinesFrom(buf, cutoffPos, decode);
    r := TailResult(lines, Max(estimate, |lines|));
    if 0 < lineCount && Newlines(buf) < lineCount {
      WholeScanEstimate(buf, lineCount);
    }
  }
}
