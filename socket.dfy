/**
 * The socket discipline of Sources/DestinyUtilities/SocketProtocol.swift: a
 * `closed` flag with an idempotent `close`, the `deinitalize` path, reading one
 * byte, a line, a request line and a fixed number of bytes, and writing a
 * buffer to completion.
 *
 * The file descriptor is abstract. What it delivers is the pending `input`; how
 * much one `read` call (of one byte or of many) delivers at most is the next
 * entry of `readSizes`, and how much one `write` call accepts at most is the next entry
 * of `writeSizes` (a call with no entry left, or an entry of 0, fails, as a
 * POSIX call returning 0 or -1 does). The bytes written so far are `output`, and
 * the number of times the descriptor has been released is the ghost `releases`.
 */
module Sockets {
  import opened Wrappers
  import opened Encoding

  /** SocketError; the `strerror(errno)` message each case carries is not modelled. */
  datatype SocketError = AcceptFailed | WriteFailed | ReadFailed | InvalidStatus

  // ---------------------------------------------------------------------
  // Specification of the reading and writing loops
  // ---------------------------------------------------------------------

  /** The oracle after one call: the call uses up one entry, if there is one. */
  function Rest(sizes: seq<nat>): (rest: seq<nat>)
    ensures |rest| == if sizes == [] then 0 else |sizes| - 1
  {
    if sizes == [] then [] else sizes[1..]
  }

  /** How many bytes one `read` call asking for `request` bytes delivers: never more than asked or available. */
  function Delivered(input: seq<byte>, sizes: seq<nat>, request: nat): (n: nat)
    ensures n <= request && n <= |input|
    ensures sizes != [] && sizes[0] > 0 && request > 0 && input != [] ==> n > 0
  {
    if sizes == [] then 0 else Min(Min(request, sizes[0]), |input|)
  }

  /** What a reading loop leaves behind: its result, the input still pending, the oracle still unused. */
  datatype ReadOutcome = ReadOutcome(result: Result<nat, SocketError>, input: seq<byte>, sizes: seq<nat>)

  /**
   * The loop of `read(into:length:)` with each call asking for the bytes still
   * missing, at most `bufferLength`: `got` bytes are in the buffer so far.
   */
  function Fill(input: seq<byte>, sizes: seq<nat>, length: nat, bufferLength: nat, got: nat): (out: ReadOutcome)
    decreases |sizes|
  {
    if got >= length then ReadOutcome(Ok(got), input, sizes)
    else
      var n := Delivered(input, sizes, Min(bufferLength, length - got));
      if n == 0 then ReadOutcome(Err(ReadFailed), input, Rest(sizes))
      else Fill(input[n..], sizes[1..], length, bufferLength, got + n)
  }

  /**
   * The same loop as written: each call asks for `min(bytes_read + bufferLength,
   * length)` bytes, which is more than is missing once something has been read.
   */
  function FillAsWritten(input: seq<byte>, sizes: seq<nat>, length: nat, bufferLength: nat, got: nat): (out: ReadOutcome)
    decreases |sizes|
  {
    if got >= length then ReadOutcome(Ok(got), input, sizes)
    else
      var n := Delivered(input, sizes, Min(got + bufferLength, length));
      if n == 0 then ReadOutcome(Err(ReadFailed), input, Rest(sizes))
      else FillAsWritten(input[n..], sizes[1..], length, bufferLength, got + n)
  }

  /**
   * The loop as written never stops short: a successful run has read at least
   * `length` bytes, and the count it returns is the number of bytes it consumed.
   */
  lemma {:induction false} FillAsWrittenAtLeast(input: seq<byte>, sizes: seq<nat>, length: nat, bufferLength: nat, got: nat)
    ensures var out := FillAsWritten(input, sizes, length, bufferLength, got);
      out.result.Ok? ==> out.result.value >= length && got + |input| - |out.input| == out.result.value
    decreases |sizes|
  {
    if got < length {
      var n := Delivered(input, sizes, Min(got + bufferLength, length));
      if n > 0 {
        FillAsWrittenAtLeast(input[n..], sizes[1..], length, bufferLength, got + n);
      }
    }
  }

  /**
   * As written, `read(into:length:)` can read past `length`: with 20 bytes
   * pending, a first call that delivers 4 and a 10-byte request, the second
   * call asks for 10 more bytes at offset 4, and the read returns 14.
   */
  lemma FillAsWrittenOverruns()
    ensures FillAsWritten(seq(20, _ => 7), [4, 100], 10, 1024, 0).result == Ok(14)
  {
    var input := seq(20, _ => 7);
    assert Delivered(input, [4, 100], Min(0 + 1024, 10)) == 4;
    assert Delivered(input[4..], [100], Min(4 + 1024, 10)) == 10;
  }

  /** One call of the loop: it delivers `n` bytes and the rest of the run continues from there. */
  lemma FillStep(input: seq<byte>, sizes: seq<nat>, length: nat, bufferLength: nat, got: nat, n: nat)
    requires got < length && n > 0
    requires n == Delivered(input, sizes, Min(bufferLength, length - got))
    ensures sizes != [] && n <= |input|
    ensures Fill(input, sizes, length, bufferLength, got) == Fill(input[n..], sizes[1..], length, bufferLength, got + n)
  {
  }

  /** A reading loop consumes its input from the front. */
  lemma {:induction false} FillConsumesFront(input: seq<byte>, sizes: seq<nat>, length: nat, bufferLength: nat, got: nat)
    ensures var rest := Fill(input, sizes, length, bufferLength, got).input;
      |rest| <= |input| && rest == input[|input| - |rest|..]
    decreases |sizes|
  {
    if got < length {
      var n := Delivered(input, sizes, Min(bufferLength, length - got));
      if n > 0 {
        FillStep(input, sizes, length, bufferLength, got, n);
        FillConsumesFront(input[n..], sizes[1..], length, bufferLength, got + n);
        var rest := Fill(input[n..], sizes[1..], length, bufferLength, got + n).input;
        assert input[n..][|input[n..]| - |rest|..] == input[|input| - |rest|..];
      }
    }
  }

  /**
   * With each call asking only for what is missing, a successful read
   * returns exactly `length` and has consumed exactly the missing bytes;
   * a failed one has consumed fewer.
   */
  lemma {:induction false} FillExact(input: seq<byte>, sizes: seq<nat>, length: nat, bufferLength: nat, got: nat)
    requires got <= length
    ensures var out := Fill(input, sizes, length, bufferLength, got);
      && (out.result.Ok? ==> out.result.value == length && |input| - |out.input| == length - got)
      && (out.result.Err? ==> out.result.error == ReadFailed && |input| - |out.input| < length - got)
    decreases |sizes|
  {
    if got < length {
      var n := Delivered(input, sizes, Min(bufferLength, length - got));
      if n > 0 {
        FillStep(input, sizes, length, bufferLength, got, n);
        FillExact(input[n..], sizes[1..], length, bufferLength, got + n);
      }
    }
  }

  /** A peer that has sent enough, on a descriptor whose calls all deliver, always completes the read. */
  lemma {:induction false} FillCompletes(input: seq<byte>, sizes: seq<nat>, length: nat, bufferLength: nat, got: nat)
    requires got <= length && bufferLength > 0
    requires |input| >= length - got && |sizes| >= length - got
    requires forall i | 0 <= i < |sizes| :: sizes[i] > 0
    ensures Fill(input, sizes, length, bufferLength, got).result == Ok(length)
    decreases |sizes|
  {
    if got < length {
      var n := Delivered(input, sizes, Min(bufferLength, length - got));
      FillCompletes(input[n..], sizes[1..], length, bufferLength, got + n);
    }
  }

  /** How many bytes one `write` call asking to send `request` bytes accepts. */
  function Accepted(sizes: seq<nat>, request: nat): (n: nat)
    ensures n <= request
    ensures sizes != [] && sizes[0] > 0 && request > 0 ==> n > 0
  {
    if sizes == [] then 0 else Min(request, sizes[0])
  }

  /** What the writing loop leaves behind: its outcome, the count sent, the oracle still unused. */
  datatype WriteOutcome = WriteOutcome(outcome: Outcome<SocketError>, sent: nat, sizes: seq<nat>)

  /** The loop of `write(_:length:)`: each call offers the `length - sent` bytes not yet sent. */
  function Send(sizes: seq<nat>, length: nat, sent: nat): (out: WriteOutcome)
    decreases |sizes|
  {
    if sent >= length then WriteOutcome(Pass, sent, sizes)
    else
      var n := Accepted(sizes, length - sent);
      if n == 0 then WriteOutcome(Fail(WriteFailed), sent, Rest(sizes))
      else Send(sizes[1..], length, sent + n)
  }

  /**
   * A write that succeeds has sent exactly `length` bytes; one that fails
   * fails with writeFailed, part-way.
   */
  lemma {:induction false} SendExact(sizes: seq<nat>, length: nat, sent: nat)
    requires sent <= length
    ensures var out := Send(sizes, length, sent);
      && sent <= out.sent <= length
      && (out.outcome.Pass? <==> out.sent == length)
      && (out.outcome.Fail? ==> out.outcome.error == WriteFailed)
    decreases |sizes|
  {
    if sent < length {
      var n := Accepted(sizes, length - sent);
      if n > 0 {
        SendExact(sizes[1..], length, sent + n);
      }
    }
  }

  /** A descriptor whose calls all accept something completes the write. */
  lemma {:induction false} SendCompletes(sizes: seq<nat>, length: nat, sent: nat)
    requires sent <= length && |sizes| >= length - sent
    requires forall i | 0 <= i < |sizes| :: sizes[i] > 0
    ensures Send(sizes, length, sent).outcome == Pass
    decreases |sizes|
  {
    if sent < length {
      SendCompletes(sizes[1..], length, sent + Accepted(sizes, length - sent));
    }
  }

  // ---------------------------------------------------------------------
  // Specification of line reading
  // ---------------------------------------------------------------------

  /** `Character(UnicodeScalar(b))` for a byte above 13; bytes up to 13 give nothing. */
  function CharOf(b: byte): string
  {
    if b > 13 then [b as char] else []
  }

  /** The text `readLine` builds from the bytes it consumed: the bytes above 13, as characters, in order. */
  function Printable(bs: seq<byte>): (s: string)
    ensures |s| <= |bs|
  {
    if bs == [] then [] else Printable(bs[..|bs| - 1]) + CharOf(bs[|bs| - 1])
  }

  /** The line text holds no control character (no CR, no LF) and only Latin-1 characters. */
  lemma {:induction false} PrintableNoControl(bs: seq<byte>)
    ensures forall i | 0 <= i < |Printable(bs)| :: 13 < Printable(bs)[i] as int < 0x100
  {
    if bs != [] {
      var init, last := bs[..|bs| - 1], bs[|bs| - 1];
      PrintableNoControl(init);
      var s := Printable(bs);
      assert s == Printable(init) + CharOf(last);
      forall i | 0 <= i < |s| ensures 13 < s[i] as int < 0x100 {
        if i < |Printable(init)| {
          assert s[i] == Printable(init)[i];
        } else {
          assert s[i] == last as char;
        }
      }
    }
  }

  /** A line made of bytes above 13 is kept whole, byte for byte. */
  lemma {:induction false} PrintableKeepsText(bs: seq<byte>)
    requires forall i | 0 <= i < |bs| :: bs[i] > 13
    ensures |Printable(bs)| == |bs|
    ensures forall i | 0 <= i < |bs| :: Printable(bs)[i] == bs[i] as char
  {
    if bs != [] {
      var init, last := bs[..|bs| - 1], bs[|bs| - 1];
      assert forall i | 0 <= i < |init| :: init[i] == bs[i];
      PrintableKeepsText(init);
      var s := Printable(bs);
      assert s == Printable(init) + [last as char];
      forall i | 0 <= i < |bs| ensures s[i] == bs[i] as char {
        if i < |init| {
          assert s[i] == Printable(init)[i];
        }
      }
    }
  }

  /** Where `readLine` stops: at the first LF (10) or NUL (0), or at the end of the pending input. */
  function LineEnd(bs: seq<byte>): (k: nat)
    ensures k <= |bs|
    ensures forall i | 0 <= i < k :: bs[i] != 10 && bs[i] != 0
    ensures k < |bs| ==> bs[k] == 10 || bs[k] == 0
  {
    if bs == [] || bs[0] == 10 || bs[0] == 0 then 0 else 1 + LineEnd(bs[1..])
  }

  /** What `readLine` returns and leaves pending. */
  function ReadLineOutcome(bs: seq<byte>): (Result<string, SocketError>, seq<byte>)
  {
    var k := LineEnd(bs);
    if k == |bs| then (Err(ReadFailed), [])
    else if bs[k] == 10 then (Ok(Printable(bs[..k])), bs[k + 1..])
    else (Err(ReadFailed), bs[k + 1..])
  }

  /** `LineEnd` is the first stop: no stop before `k` and a stop at `k` means it is `k`. */
  lemma {:induction false} LineEndAt(bs: seq<byte>, k: nat)
    requires k < |bs| && (bs[k] == 10 || bs[k] == 0)
    requires forall i | 0 <= i < k :: bs[i] != 10 && bs[i] != 0
    ensures LineEnd(bs) == k
  {
    if k > 0 {
      LineEndAt(bs[1..], k - 1);
    }
  }

  /** A line ended by CR LF comes back without either; the bytes after the LF stay pending. */
  lemma ReadLineCrLf(bs: seq<byte>, k: nat)
    requires k + 1 < |bs| && bs[k] == 13 && bs[k + 1] == 10
    requires forall i | 0 <= i < k :: bs[i] > 13
    ensures ReadLineOutcome(bs) == (Ok(Printable(bs[..k])), bs[k + 2..])
  {
    ReadLineOutcomeAt(bs, k + 1);
    assert bs[..k + 1] == bs[..k] + [13];
    PrintableSnocControl(bs[..k], 13);
  }

  /** A control byte (13 or below) adds nothing to the line text. */
  lemma PrintableSnocControl(bs: seq<byte>, b: byte)
    requires b <= 13
    ensures Printable(bs + [b]) == Printable(bs)
  {
    assert (bs + [b])[..|bs|] == bs;
    assert Printable(bs + [b]) == Printable(bs) + [];
  }

  /** A line ended by the first LF, with no NUL before it, is read up to that LF. */
  lemma ReadLineOutcomeAt(bs: seq<byte>, k: nat)
    requires k < |bs| && bs[k] == 10
    requires forall i | 0 <= i < k :: bs[i] != 10 && bs[i] != 0
    ensures ReadLineOutcome(bs) == (Ok(Printable(bs[..k])), bs[k + 1..])
  {
    LineEndAt(bs, k);
  }

  /**
   * A line that is read was ended by the first LF, with no NUL before it; the
   * bytes after that LF stay pending; the text has no control character.
   */
  lemma ReadLineOk(bs: seq<byte>)
    requires ReadLineOutcome(bs).0.Ok?
    ensures var k := |bs| - |ReadLineOutcome(bs).1| - 1;
      && 0 <= k < |bs| && bs[k] == 10 && ReadLineOutcome(bs).1 == bs[k + 1..]
      && (forall i | 0 <= i < k :: bs[i] != 10 && bs[i] != 0)
      && ReadLineOutcome(bs).0.value == Printable(bs[..k])
    ensures var line := ReadLineOutcome(bs).0.value;
      forall i | 0 <= i < |line| :: line[i] as int > 13
  {
    PrintableNoControl(bs[..LineEnd(bs)]);
  }

  /** What a `readLine` leaves behind: its result, the input still pending, the oracle still unused. */
  datatype LineOutcome = LineOutcome(result: Result<string, SocketError>, input: seq<byte>, sizes: seq<nat>)

  /**
   * The loop of `readLine` with `line` built so far: each `read()` is one call
   * of the oracle; a call that delivers nothing, or delivers a NUL, fails with
   * readFailed, an LF ends the line, and any other byte is appended when above 13.
   */
  function LineRead(input: seq<byte>, sizes: seq<nat>, line: string): (out: LineOutcome)
    decreases |input|
  {
    if Delivered(input, sizes, 1) == 0 then LineOutcome(Err(ReadFailed), input, Rest(sizes))
    else if input[0] == 0 then LineOutcome(Err(ReadFailed), input[1..], sizes[1..])
    else if input[0] == 10 then LineOutcome(Ok(line), input[1..], sizes[1..])
    else LineRead(input[1..], sizes[1..], line + CharOf(input[0]))
  }

  /** The first `n` calls of the oracle each deliver at least one byte. */
  predicate Ready(sizes: seq<nat>, n: nat)
  {
    n <= |sizes| && forall i | 0 <= i < n :: sizes[i] > 0
  }

  /** After one call that delivered, the next `n` calls are the rest of the first `n + 1`. */
  lemma ReadyTail(sizes: seq<nat>, n: nat)
    requires Ready(sizes, n + 1)
    ensures sizes[0] > 0 && Ready(sizes[1..], n)
  {
    forall i | 0 <= i < n ensures sizes[1..][i] > 0 {
      assert sizes[1..][i] == sizes[i + 1];
    }
  }

  /** How many `read()` calls `readLine` makes when none of them comes back empty-handed. */
  function LineCalls(bs: seq<byte>): (n: nat)
    ensures n <= |bs|
  {
    if LineEnd(bs) < |bs| then LineEnd(bs) + 1 else |bs|
  }

  /** How many of the first `n` calls of the oracle deliver before the first that does not. */
  function ReadyPrefix(sizes: seq<nat>, n: nat): (j: nat)
    ensures j <= n && Ready(sizes, j)
    ensures j < n ==> j == |sizes| || sizes[j] == 0
  {
    if n == 0 then 0
    else
      var j := ReadyPrefix(sizes, n - 1);
      if j < n - 1 || n - 1 == |sizes| || (n - 1 < |sizes| && sizes[n - 1] == 0) then j else n
  }

  /** Reading a byte in front of the text read so far puts its character in front. */
  lemma {:induction false} PrintableCons(b: byte, bs: seq<byte>)
    ensures Printable([b] + bs) == CharOf(b) + Printable(bs)
    decreases |bs|
  {
    if bs != [] {
      var init, last := bs[..|bs| - 1], bs[|bs| - 1];
      assert ([b] + bs)[..|bs|] == [b] + init;
      PrintableCons(b, init);
    } else {
      assert ([b] + bs)[..0] == [];
    }
  }

  /** The text of the first `k` bytes, split after the first byte. */
  lemma PrintableFront(bs: seq<byte>, k: nat)
    requires 0 < k <= |bs|
    ensures Printable(bs[..k]) == CharOf(bs[0]) + Printable(bs[1..][..k - 1])
  {
    assert bs[..k] == [bs[0]] + bs[1..][..k - 1];
    PrintableCons(bs[0], bs[1..][..k - 1]);
  }

  /**
   * When each call `readLine` makes delivers, it stops where `LineEnd` says,
   * one oracle entry per byte consumed, plus one for the final failing call
   * when the input runs out.
   */
  lemma {:induction false} LineReadReady(bs: seq<byte>, sizes: seq<nat>, line: string)
    requires Ready(sizes, LineCalls(bs))
    ensures var out, k := LineRead(bs, sizes, line), LineEnd(bs);
      && out.result == (if k < |bs| && bs[k] == 10 then Ok(line + Printable(bs[..k])) else Err(ReadFailed))
      && out.input == (if k < |bs| then bs[k + 1..] else [])
      && out.sizes == if k < |bs| then sizes[k + 1..] else Rest(sizes[|bs|..])
    decreases |bs|
  {
    if bs == [] {
    } else if bs[0] == 0 || bs[0] == 10 {
      assert sizes[0] > 0;
      assert line + Printable(bs[..0]) == line;
    } else {
      var b, rest, k := bs[0], bs[1..], LineEnd(bs);
      assert LineEnd(rest) == k - 1;
      assert LineCalls(rest) == LineCalls(bs) - 1;
      ReadyTail(sizes, LineCalls(rest));
      assert LineRead(bs, sizes, line) == LineRead(rest, sizes[1..], line + CharOf(b));
      LineReadReady(rest, sizes[1..], line + CharOf(b));
      PrintableFront(bs, k);
      var c, tail := CharOf(b), Printable(rest[..k - 1]);
      assert (line + c) + tail == line + (c + tail);
      if k < |bs| {
        assert rest[k - 1] == bs[k];
        assert rest[k - 1 + 1..] == bs[k + 1..];
        assert sizes[1..][k - 1 + 1..] == sizes[k + 1..];
      } else {
        assert sizes[1..][|rest|..] == sizes[|bs|..];
      }
    }
  }

  /**
   * A read that comes back empty-handed ends `readLine` there with readFailed,
   * whatever is still pending: if call `j` is the first that fails, the first
   * `j` bytes are consumed and the rest stay pending.
   */
  lemma {:induction false} LineReadShort(bs: seq<byte>, sizes: seq<nat>, line: string, j: nat)
    requires j < LineCalls(bs) && Ready(sizes, j) && (j == |sizes| || sizes[j] == 0)
    ensures LineRead(bs, sizes, line) == LineOutcome(Err(ReadFailed), bs[j..], Rest(sizes[j..]))
    decreases j
  {
    if j > 0 {
      var b, rest := bs[0], bs[1..];
      assert LineCalls(rest) == LineCalls(bs) - 1;
      ReadyTail(sizes, j - 1);
      LineReadShort(rest, sizes[1..], line + CharOf(b), j - 1);
      assert rest[j - 1..] == bs[j..];
      assert sizes[1..][j - 1..] == sizes[j..];
    }
  }

  /**
   * A line `readLine` returns was ended by the first LF, with no NUL before it,
   * and each call up to that LF delivered: it is the line `ReadLineOutcome` reads.
   */
  lemma {:induction false} LineReadOk(bs: seq<byte>, sizes: seq<nat>)
    requires LineRead(bs, sizes, "").result.Ok?
    ensures Ready(sizes, LineCalls(bs))
    ensures var out := LineRead(bs, sizes, "");
      && ReadLineOutcome(bs) == (out.result, out.input)
      && out.sizes == sizes[LineCalls(bs)..]
  {
    var n := LineCalls(bs);
    var j := ReadyPrefix(sizes, n);
    if j < n {
      LineReadShort(bs, sizes, "", j);
      assert false;
    }
    LineReadReady(bs, sizes, "");
    assert "" + Printable(bs[..LineEnd(bs)]) == Printable(bs[..LineEnd(bs)]);
  }

  // ---------------------------------------------------------------------
  // Request-line tokens
  // ---------------------------------------------------------------------

  /** The first word of `s`: the characters before the first space. */
  function Word(s: string): (w: string)
    ensures |w| <= |s| && w == s[..|w|]
    ensures ' ' !in w
    ensures |w| < |s| ==> s[|w|] == ' '
  {
    if s == [] || s[0] == ' ' then [] else [s[0]] + Word(s[1..])
  }

  /** `split(separator: " ")`: the maximal runs of non-space characters, in order; empty runs are omitted. */
  function Tokens(s: string): (ts: seq<string>)
    ensures forall i | 0 <= i < |ts| :: ts[i] != [] && ' ' !in ts[i]
    decreases |s|
  {
    if s == [] then []
    else if s[0] == ' ' then Tokens(s[1..])
    else [Word(s)] + Tokens(s[|Word(s)|..])
  }

  /** What `readHttpRequest` makes of a line: its tokens, or invalidStatus when there are fewer than three. */
  function RequestTokens(line: string): (r: Result<seq<string>, SocketError>)
    ensures r.Ok? <==> |Tokens(line)| >= 3
    ensures r.Ok? ==> r.value == Tokens(line)
    ensures r.Err? ==> r.error == InvalidStatus
  {
    var tokens := Tokens(line);
    if |tokens| >= 3 then Ok(tokens) else Err(InvalidStatus)
  }

  lemma {:induction false} WordOfJoin(w: string, rest: string)
    requires ' ' !in w
    requires rest == [] || rest[0] == ' '
    ensures Word(w + rest) == w
    decreases |w|
  {
    if w == [] {
      assert w + rest == rest;
    } else {
      assert (w + rest)[1..] == w[1..] + rest;
      WordOfJoin(w[1..], rest);
    }
  }

  /** A word followed by a space or the end of the line is the next token. */
  lemma TokensCons(w: string, rest: string)
    requires w != [] && ' ' !in w
    requires rest == [] || rest[0] == ' '
    ensures Tokens(w + rest) == [w] + Tokens(rest)
  {
    WordOfJoin(w, rest);
    assert (w + rest)[|w|..] == rest;
  }

  /** Splitting words joined by single spaces gives the words back. */
  lemma {:induction false} TokensOfJoin(ts: seq<string>)
    requires forall i | 0 <= i < |ts| :: ts[i] != [] && ' ' !in ts[i]
    ensures Tokens(Join(ts, " ")) == ts
    decreases |ts|
  {
    if |ts| == 1 {
      TokensCons(ts[0], []);
      assert ts[0] + [] == ts[0];
    } else if ts != [] {
      var tail := " " + Join(ts[1..], " ");
      assert Join(ts, " ") == ts[0] + tail;
      TokensCons(ts[0], tail);
      assert tail[1..] == Join(ts[1..], " ");
      TokensOfJoin(ts[1..]);
      assert ts == [ts[0]] + ts[1..];
    }
  }

  /**
   * A line of words joined by single spaces is accepted exactly when it has at
   * least three words, and then yields those words; otherwise invalidStatus.
   */
  lemma RequestTokensOfJoin(ts: seq<string>)
    requires forall i | 0 <= i < |ts| :: ts[i] != [] && ' ' !in ts[i]
    ensures RequestTokens(Join(ts, " ")).Ok? <==> |ts| >= 3
    ensures |ts| >= 3 ==> RequestTokens(Join(ts, " ")) == Ok(ts)
    ensures |ts| < 3 ==> RequestTokens(Join(ts, " ")) == Err(InvalidStatus)
  {
    TokensOfJoin(ts);
  }

  /** A leading space makes no token. */
  lemma TokensSpace(s: string)
    ensures Tokens(" " + s) == Tokens(s)
  {
    assert (" " + s)[1..] == s;
  }

  /** Extra spaces make no empty tokens: a request line with a doubled space splits like a single-spaced one. */
  lemma RequestLineExtraSpaces(m: string, p: string, v: string)
    requires m != [] && p != [] && v != [] && ' ' !in m && ' ' !in p && ' ' !in v
    ensures RequestTokens(m + "  " + p + " " + v) == Ok([m, p, v])
  {
    var last := " " + v;
    var middle := " " + (p + last);
    calc {
      Tokens(m + "  " + p + " " + v);
      { assert m + "  " + p + " " + v == m + (" " + middle); TokensCons(m, " " + middle); }
      [m] + Tokens(" " + middle);
      { TokensSpace(middle); TokensSpace(p + last); }
      [m] + Tokens(p + last);
      { TokensCons(p, last); }
      [m] + ([p] + Tokens(last));
      { TokensSpace(v); TokensCons(v, []); assert v + [] == v; }
      [m, p, v];
    }
  }

  // ---------------------------------------------------------------------
  // The socket
  // ---------------------------------------------------------------------

  class Socket {
    /** `Self.bufferLength`: the most one call of the reading loop asks for. */
    const bufferLength: nat
    const fileDescriptor: int
    var closed: bool
    ghost var releases: nat
    var input: seq<byte>
    var readSizes: seq<nat>
    var writeSizes: seq<nat>
    var output: seq<byte>

    constructor(fileDescriptor: int, bufferLength: nat, input: seq<byte>, readSizes: seq<nat>, writeSizes: seq<nat>)
      ensures this.fileDescriptor == fileDescriptor && this.bufferLength == bufferLength
      ensures this.input == input && this.readSizes == readSizes && this.writeSizes == writeSizes
      ensures !closed && releases == 0 && output == []
    {
      this.fileDescriptor := fileDescriptor;
      this.bufferLength := bufferLength;
      this.input := input;
      this.readSizes := readSizes;
      this.writeSizes := writeSizes;
      closed := false;
      releases := 0;
      output := [];
    }

    /** `close()`: on an open socket, mark it closed and release the descriptor; otherwise nothing. */
    method Close()
      modifies this`closed, this`releases
      ensures closed
      ensures releases == if old(closed) then old(releases) else old(releases) + 1
    {
      if closed {
        return;
      }
      closed := true;
      releases := releases + 1;
    }

    /** `deinitalize()`: on an open socket, release the descriptor, without marking it closed. */
    method Deinitalize()
      modifies this`releases
      ensures releases == if closed then old(releases) else old(releases) + 1
    {
      if closed {
        return;
      }
      releases := releases + 1;
    }

    /**
     * `read()`: one `read` call for one byte. The call's own result is
     * ignored, so a call that delivers nothing and a NUL byte both fail with
     * readFailed, even while input is pending.
     */
    method ReadByte() returns (r: Result<byte, SocketError>)
      modifies this`input, this`readSizes
      ensures Delivered(old(input), old(readSizes), 1) == 0
              ==> r == Err(ReadFailed) && input == old(input) && readSizes == Rest(old(readSizes))
      ensures Delivered(old(input), old(readSizes), 1) > 0
              ==> && input == old(input)[1..] && readSizes == old(readSizes)[1..]
                  && r == if old(input)[0] > 0 then Ok(old(input)[0]) else Err(ReadFailed)
      ensures r.Ok? ==> r.value > 0
    {
      var result: byte := 0;
      var n := Delivered(input, readSizes, 1);
      if n > 0 {
        result := input[0];
        input := input[1..];
      }
      readSizes := Rest(readSizes);
      if result == 0 {
        return Err(ReadFailed);
      }
      return Ok(result);
    }

    /** `readLine()`: reads up to and including the next LF, keeping the bytes above 13. */
    method ReadLine() returns (r: Result<string, SocketError>)
      modifies this`input, this`readSizes
      ensures LineOutcome(r, input, readSizes) == LineRead(old(input), old(readSizes), "")
    {
      ghost var total := LineRead(input, readSizes, "");
      var line: string := "";
      var index: byte := 0;
      while index != 10
        invariant index != 10 ==> LineRead(input, readSizes, line) == total
        invariant index == 10 ==> LineOutcome(Ok(line), input, readSizes) == total
        decreases |input|, index != 10
      {
        ghost var pending, sizes, before := input, readSizes, line;
        var b := ReadByte();
        if b.Err? {
          return Err(ReadFailed);
        }
        index := b.value;
        if index > 13 {
          line := line + [index as char];
        }
        assert line == before + CharOf(index);
        assert index != 10 ==> LineRead(pending, sizes, before) == LineRead(input, readSizes, line);
      }
      return Ok(line);
    }

    /** `readHttpRequest()`: the tokens of the next line, at least three of them. */
    method ReadHttpRequest() returns (r: Result<seq<string>, SocketError>)
      modifies this`input, this`readSizes
      ensures var out := LineRead(old(input), old(readSizes), "");
        && input == out.input && readSizes == out.sizes
        && r == match out.result
                case Err(e) => Err(e)
                case Ok(line) => RequestTokens(line)
    {
      var status := ReadLine();
      if status.Err? {
        return Err(status.error);
      }
      var tokens := Tokens(status.value);
      if |tokens| < 3 {
        return Err(InvalidStatus);
      }
      return Ok(tokens);
    }

    /**
     * `read(into:length:)`, with each call asking for the bytes still missing
     * (at most `bufferLength`): without a buffer it reads nothing and returns
     * 0; otherwise the bytes read land at the front of the buffer, in order.
     */
    method ReadInto(buffer: array?<byte>, length: nat) returns (r: Result<nat, SocketError>)
      requires buffer != null ==> length <= buffer.Length
      modifies this`input, this`readSizes, buffer
      ensures buffer == null ==> r == Ok(0) && input == old(input) && readSizes == old(readSizes)
      ensures buffer != null ==>
        var out := Fill(old(input), old(readSizes), length, bufferLength, 0);
        r == out.result && input == out.input && readSizes == out.sizes
      ensures buffer != null ==> (
        && |old(input)| - length <= |input| <= |old(input)|
        && buffer[..|old(input)| - |input|] == old(input)[..|old(input)| - |input|])
    {
      if buffer == null {
        return Ok(0);
      }
      r := FillBuffer(buffer, length);
      assert buffer[..|old(input)| - |input|] == old(input)[..|old(input)| - |input|];
    }

    /** `read(into:length:)` on a buffer that exists. */
    method FillBuffer(buffer: array<byte>, length: nat) returns (r: Result<nat, SocketError>)
      requires length <= buffer.Length
      modifies this`input, this`readSizes, buffer
      ensures var out := Fill(old(input), old(readSizes), length, bufferLength, 0);
        r == out.result && input == out.input && readSizes == out.sizes
      ensures |old(input)| - length <= |input| <= |old(input)|
      ensures forall j | 0 <= j < |old(input)| - |input| :: buffer[j] == old(input)[j]
    {
      var pending, calls;
      r, pending, calls := ReadLoop(buffer, length, input, readSizes);
      input, readSizes := pending, calls;
    }

    /**
     * The loop of `read(into:length:)`: calls go on until `length` bytes are in
     * the buffer, each one's bytes landing after the previous one's.
     */
    method ReadLoop(buffer: array<byte>, length: nat, input: seq<byte>, sizes: seq<nat>)
      returns (r: Result<nat, SocketError>, pending: seq<byte>, calls: seq<nat>)
      requires length <= buffer.Length
      modifies buffer
      ensures ReadOutcome(r, pending, calls) == Fill(input, sizes, length, bufferLength, 0)
      ensures |input| - length <= |pending| <= |input|
      ensures forall j | 0 <= j < |input| - |pending| :: buffer[j] == input[j]
    {
      pending, calls := input, sizes;
      var bytesRead: nat := 0;
      while bytesRead < length
        invariant bytesRead <= length && bytesRead <= |input|
        invariant pending == input[bytesRead..]
        invariant forall j | 0 <= j < bytesRead :: buffer[j] == input[j]
        invariant Fill(pending, calls, length, bufferLength, bytesRead) == Fill(input, sizes, length, bufferLength, 0)
        decreases |calls|
      {
        var readBytes := ReadCall(buffer, length, input, pending, calls, bytesRead);
        if readBytes == 0 {
          return Err(ReadFailed), pending, Rest(calls);
        }
        pending, calls := pending[readBytes..], calls[1..];
        bytesRead := bytesRead + readBytes;
      }
      return Ok(bytesRead), pending, calls;
    }

    /**
     * One `read` call of the loop, asking for the bytes still missing (at most
     * `bufferLength`): the bytes it delivers land at offset `bytesRead`, and
     * the rest of the run goes on from there; delivering none ends the run
     * with readFailed.
     */
    method ReadCall(buffer: array<byte>, length: nat, ghost input: seq<byte>, pending: seq<byte>, calls: seq<nat>, bytesRead: nat)
      returns (n: nat)
      requires bytesRead < length <= buffer.Length
      requires bytesRead <= |input| && pending == input[bytesRead..]
      modifies buffer
      ensures n == 0 ==> Fill(pending, calls, length, bufferLength, bytesRead) == ReadOutcome(Err(ReadFailed), pending, Rest(calls))
      ensures n > 0 ==> calls != [] && bytesRead + n <= length && bytesRead + n <= |input|
      ensures n > 0 ==> pending[n..] == input[bytesRead + n..]
      ensures n > 0 ==> Fill(pending, calls, length, bufferLength, bytesRead) == Fill(pending[n..], calls[1..], length, bufferLength, bytesRead + n)
      ensures forall j | 0 <= j < bytesRead :: buffer[j] == old(buffer[j])
      ensures forall j | bytesRead <= j < bytesRead + n :: buffer[j] == input[j]
    {
      n := Delivered(pending, calls, Min(bufferLength, length - bytesRead));
      if n > 0 {
        FillStep(pending, calls, length, bufferLength, bytesRead, n);
        forall j | 0 <= j < n {
          buffer[bytesRead + j] := pending[j];
        }
        assert pending[n..] == input[bytesRead + n..];
      }
    }

    /** `read(length:)`: reads exactly `length` bytes into a new array. */
    method ReadLength(length: nat) returns (r: Result<seq<byte>, SocketError>)
      modifies this`input, this`readSizes
      ensures var out := Fill(old(input), old(readSizes), length, bufferLength, 0);
        && input == out.input && readSizes == out.sizes
        && (out.result.Ok? ==> length <= |old(input)| && r == Ok(old(input)[..length]))
        && (out.result.Err? ==> r == Err(out.result.error))
    {
      FillExact(input, readSizes, length, bufferLength, 0);
      FillConsumesFront(input, readSizes, length, bufferLength, 0);
      var buffer := new byte[length];
      var count := ReadInto(buffer, length);
      if count.Err? {
        return Err(count.error);
      }
      return Ok(buffer[..count.value]);
    }

    /**
     * `write(_:length:)`: on a closed socket nothing is sent and the call
     * succeeds; otherwise calls offer the unsent rest of the first `length`
     * bytes until all are sent, failing with writeFailed when a call accepts
     * nothing.
     */
    method Write(data: seq<byte>, length: nat) returns (r: Outcome<SocketError>)
      requires length <= |data|
      modifies this`writeSizes, this`output
      ensures closed ==> r == Pass && output == old(output) && writeSizes == old(writeSizes)
      ensures !closed ==>
        var out := Send(old(writeSizes), length, 0);
        && r == out.outcome && writeSizes == out.sizes
        && out.sent <= length && output == old(output) + data[..out.sent]
      ensures r.Pass? && !closed ==> output == old(output) + data[..length]
      ensures r.Fail? ==> r.error == WriteFailed
    {
      if closed {
        return Pass;
      }
      ghost var sizes := writeSizes;
      SendExact(sizes, length, 0);
      var sent: nat := 0;
      while sent < length
        invariant sent <= length
        invariant output == old(output) + data[..sent]
        invariant Send(writeSizes, length, sent) == Send(sizes, length, 0)
        decreases |writeSizes|
      {
        var result := Accepted(writeSizes, length - sent);
        if result == 0 {
          writeSizes := Rest(writeSizes);
          return Fail(WriteFailed);
        }
        assert data[..sent + result] == data[..sent] + data[sent..sent + result];
        output := output + data[sent..sent + result];
        writeSizes := writeSizes[1..];
        sent := sent + result;
      }
      return Pass;
    }
  }

  // ---------------------------------------------------------------------
  // Release counting
  // ---------------------------------------------------------------------

  /** Closing twice releases the descriptor once (none if it was already closed). */
  method CloseTwice(s: Socket)
    modifies s
    ensures s.closed
    ensures s.releases == old(s.releases) + if old(s.closed) then 0 else 1
  {
    s.Close();
    s.Close();
  }

  /** Deinitializing twice releases the descriptor twice, as `closed` is never set. */
  method DeinitalizeTwice(s: Socket)
    modifies s
    ensures s.closed == old(s.closed)
    ensures s.releases == old(s.releases) + if old(s.closed) then 0 else 2
  {
    s.Deinitalize();
    s.Deinitalize();
  }

  /** After `close`, `deinitalize` releases nothing more. */
  method CloseThenDeinitalize(s: Socket)
    modifies s
    ensures s.releases == old(s.releases) + if old(s.closed) then 0 else 1
  {
    s.Close();
    s.Deinitalize();
  }

  /** `deinitalize` does not mark the socket closed, so a later `close` releases the descriptor a second time. */
  method DeinitalizeThenClose(s: Socket)
    modifies s
    ensures s.closed
    ensures s.releases == old(s.releases) + if old(s.closed) then 0 else 2
  {
    s.Deinitalize();
    s.Close();
  }
}
