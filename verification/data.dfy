/**
 * The status-stream client (`RatatoskrSocket`): a best-effort connection to
 * a local stream socket, a carry-over text buffer, newline framing of the
 * incoming text into JSON status records, and synthetic "ratatoskr" records
 * that report connects and disconnects. The connection attempt and each
 * read are inputs of the model; JSON decoding is an arbitrary function
 * `parse` from a trimmed line to an optional record.
 */
module Data {
  import opened Wrappers
  import Json
  import Utf8
  import Text
  import opened Channels

  /** One status record: `PartialMsg`. */
  datatype PartialMsg = PartialMsg(resource: string, warning: real, icon: string, data: Option<Json.Value>)

  /** The resource name of the records the client synthesises about itself. */
  const SelfResource: string := "ratatoskr"

  /** Sent right after a successful connect. */
  const ConnectedMsg: PartialMsg := PartialMsg(SelfResource, 0.0, "", None)

  /** Sent when the peer closes the stream. */
  const DisconnectedMsg: PartialMsg := PartialMsg(SelfResource, 1.0, "", None)

  /** `serde_json::from_str::<PartialMsg>` on one trimmed line. */
  type Parser = string -> Option<PartialMsg>

  /** The outcome of one non-blocking `read`: `Bytes([])` is the zero-length
      read of a closed peer, `WouldBlock` is the transient "no data yet" error
      and `Failed` is every other I/O error. */
  datatype ReadResult = Bytes(bytes: seq<Utf8.byte>) | WouldBlock | Failed

  /** Size of the stack buffer one read fills at most. */
  const ReadBufferSize: nat := 4096

  // ---------------------------------------------------------------------------
  // Framing, as functions of the text

  /** Complete lines, each with its terminating newline, one after another. */
  function Join(lines: seq<string>): string
  {
    if lines == [] then [] else lines[0] + "\n" + Join(lines[1..])
  }

  predicate NewlineFree(lines: seq<string>) {
    forall i :: 0 <= i < |lines| ==> '\n' !in lines[i]
  }

  /** Cut `s` at each newline: the complete lines in order and the
      unterminated suffix that stays in the buffer. */
  function Frame(s: string): (seq<string>, string)
    decreases |s|
  {
    match Text.Find(s, '\n')
    case None => ([], s)
    case Some(pos) =>
      var (lines, rest) := Frame(s[pos + 1..]);
      ([s[..pos]] + lines, rest)
  }

  /** The framing loses nothing: the lines, each given back its newline,
      followed by the leftover, are the text; no line and not the leftover
      contains a newline. */
  lemma {:induction false} FrameDecomposes(s: string)
    ensures NewlineFree(Frame(s).0) && '\n' !in Frame(s).1
    ensures Join(Frame(s).0) + Frame(s).1 == s
    decreases |s|
  {
    match Text.Find(s, '\n')
    case None =>
    case Some(pos) =>
      FrameDecomposes(s[pos + 1..]);
      FrameStep(s, pos, Frame(s[pos + 1..]).0, Frame(s[pos + 1..]).1);
  }

  /** One step of `Frame`: the first line and the framing of what follows it. */
  lemma FrameStep(s: string, pos: nat, lines: seq<string>, rest: string)
    requires pos < |s| && s[pos] == '\n' && '\n' !in s[..pos]
    requires NewlineFree(lines) && Join(lines) + rest == s[pos + 1..]
    ensures NewlineFree([s[..pos]] + lines)
    ensures Join([s[..pos]] + lines) + rest == s
  {
    var all := [s[..pos]] + lines;
    assert all[0] == s[..pos] && all[1..] == lines;
    assert s == s[..pos] + "\n" + s[pos + 1..];
    forall i | 0 <= i < |all| ensures '\n' !in all[i] {
      if i > 0 { assert all[i] == lines[i - 1]; }
    }
  }

  lemma {:induction false} JoinAppend(a: seq<string>, b: seq<string>)
    ensures Join(a + b) == Join(a) + Join(b)
  {
    if a == [] {
      assert a + b == b;
    } else {
      assert (a + b)[1..] == a[1..] + b;
      JoinAppend(a[1..], b);
    }
  }

  /** The framing is the only way to write `s` as newline-terminated,
      newline-free lines followed by a newline-free suffix. */
  lemma {:induction false} FrameUnique(lines: seq<string>, rest: string)
    requires NewlineFree(lines) && '\n' !in rest
    ensures Frame(Join(lines) + rest) == (lines, rest)
  {
    var s := Join(lines) + rest;
    if lines == [] {
      assert s == rest;
    } else {
      var l0, tail := lines[0], lines[1..];
      assert NewlineFree(tail) by {
        forall i | 0 <= i < |tail| ensures '\n' !in tail[i] {
          assert tail[i] == lines[i + 1];
        }
      }
      assert '\n' !in l0 by {
        assert lines[0] == l0;
      }
      assert s == l0 + "\n" + (Join(tail) + rest);
      assert s[|l0|] == '\n';
      var pos := Text.Find(s, '\n').value;
      assert pos == |l0|;
      assert s[..pos] == l0;
      assert s[pos + 1..] == Join(tail) + rest;
      FrameUnique(tail, rest);
      assert [l0] + tail == lines;
    }
  }

  /** Framing the concatenation of two texts is framing the first, then the
      second after the first's leftover. */
  lemma FrameSplit(s: string, t: string)
    ensures Frame(s + t) == (Frame(s).0 + Frame(Frame(s).1 + t).0, Frame(Frame(s).1 + t).1)
  {
    var l1, r1 := Frame(s).0, Frame(s).1;
    var l2, r2 := Frame(r1 + t).0, Frame(r1 + t).1;
    FrameDecomposes(s);
    FrameDecomposes(r1 + t);
    Rejoin(s, t, l1, r1, l2, r2);
    NewlineFreeAppend(l1, l2);
    FrameUnique(l1 + l2, r2);
  }

  /** Two framings glued at a leftover frame the concatenation. */
  lemma Rejoin(s: string, t: string, l1: seq<string>, r1: string, l2: seq<string>, r2: string)
    requires Join(l1) + r1 == s && Join(l2) + r2 == r1 + t
    ensures Join(l1 + l2) + r2 == s + t
  {
    JoinAppend(l1, l2);
    assert s + t == Join(l1) + (r1 + t);
  }

  lemma NewlineFreeAppend(a: seq<string>, b: seq<string>)
    requires NewlineFree(a) && NewlineFree(b)
    ensures NewlineFree(a + b)
  {
    forall i | 0 <= i < |a + b| ensures '\n' !in (a + b)[i] {
      if i < |a| { assert (a + b)[i] == a[i]; } else { assert (a + b)[i] == b[i - |a|]; }
    }
  }

  /** What stays in the buffer is exactly the text after the last newline
      (the whole text when there is none). */
  lemma LeftoverFollowsLastNewline(s: string)
    ensures var rest := Frame(s).1;
      |rest| <= |s| && s[|s| - |rest|..] == rest && '\n' !in rest
      && (|rest| < |s| ==> s[|s| - |rest| - 1] == '\n')
  {
    var (lines, rest) := Frame(s);
    FrameDecomposes(s);
    if lines != [] {
      JoinEndsWithNewline(lines);
    }
  }

  lemma {:induction false} JoinEndsWithNewline(lines: seq<string>)
    requires lines != []
    ensures |Join(lines)| > 0 && Join(lines)[|Join(lines)| - 1] == '\n'
  {
    if lines[1..] != [] {
      JoinEndsWithNewline(lines[1..]);
    }
  }

  // ---------------------------------------------------------------------------
  // Records emitted for complete lines

  /** The record a complete line yields: none for a blank line or one that does
      not parse, otherwise the parse of the trimmed line. */
  function LineRecord(line: string, parse: Parser): seq<PartialMsg>
  {
    var msg := Text.Trim(line);
    if msg != [] then
      match parse(msg)
      case Some(data) => [data]
      case None => []
    else []
  }

  /** The records of complete lines, in line order. */
  function Records(lines: seq<string>, parse: Parser): (r: seq<PartialMsg>)
    ensures |r| <= |lines|
  {
    if lines == [] then [] else LineRecord(lines[0], parse) + Records(lines[1..], parse)
  }

  lemma {:induction false} RecordsAppend(a: seq<string>, b: seq<string>, parse: Parser)
    ensures Records(a + b, parse) == Records(a, parse) + Records(b, parse)
  {
    if a == [] {
      assert a + b == b;
    } else {
      assert (a + b)[1..] == a[1..] + b;
      RecordsAppend(a[1..], b, parse);
    }
  }

  /** A line made only of whitespace is consumed without a record. */
  lemma BlankLineYieldsNothing(line: string, parse: Parser)
    requires forall i :: 0 <= i < |line| ==> Text.IsWhitespace(line[i])
    ensures LineRecord(line, parse) == []
  {
    Text.TrimEmptyIff(line);
  }

  /** Appending decoded text `chunk` to buffer `buf`: the records emitted and
      the new buffer. */
  function Feed(buf: string, chunk: string, parse: Parser): (seq<PartialMsg>, string)
  {
    (Records(Frame(buf + chunk).0, parse), Frame(buf + chunk).1)
  }

  /** After feeding, the buffer holds no newline. */
  lemma FeedLeavesNoNewline(buf: string, chunk: string, parse: Parser)
    ensures '\n' !in Feed(buf, chunk, parse).1
  {
    FrameDecomposes(buf + chunk);
  }

  /** Text without a newline only accumulates. */
  lemma FeedWithoutNewline(buf: string, chunk: string, parse: Parser)
    requires '\n' !in buf + chunk
    ensures Feed(buf, chunk, parse) == ([], buf + chunk)
  {
    FrameUnique([], buf + chunk);
  }

  /** Split invariance of the framing: feeding `a` and then `b` emits the same
      records, in the same order, and leaves the same buffer as feeding `a + b`. */
  lemma FeedSplit(buf: string, a: string, b: string, parse: Parser)
    ensures Feed(buf, a + b, parse)
         == (Feed(buf, a, parse).0 + Feed(Feed(buf, a, parse).1, b, parse).0, Feed(Feed(buf, a, parse).1, b, parse).1)
  {
    var s := buf + a;
    var l1, r1 := Frame(s).0, Frame(s).1;
    var l2, r2 := Frame(r1 + b).0, Frame(r1 + b).1;
    assert buf + (a + b) == s + b;
    FrameSplit(s, b);
    RecordsAppend(l1, l2, parse);
    assert Feed(buf, a, parse) == (Records(l1, parse), r1);
    assert Feed(r1, b, parse) == (Records(l2, parse), r2);
    assert Feed(buf, a + b, parse) == (Records(l1 + l2, parse), r2);
  }

  /** A non-empty read of `bytes`: text that is not UTF-8 is dropped whole. */
  function Receive(buf: string, bytes: seq<Utf8.byte>, parse: Parser): (r: (seq<PartialMsg>, string))
  {
    match Utf8.Decode(bytes)
    case None => ([], buf)
    case Some(chunk) => Feed(buf, chunk, parse)
  }

  /** Split invariance at the byte level, for reads that are each well-formed UTF-8. */
  lemma ReceiveSplit(buf: string, a: seq<Utf8.byte>, b: seq<Utf8.byte>, parse: Parser)
    requires Utf8.Decode(a).Some? && Utf8.Decode(b).Some?
    ensures Receive(buf, a + b, parse)
         == (Receive(buf, a, parse).0 + Receive(Receive(buf, a, parse).1, b, parse).0, Receive(Receive(buf, a, parse).1, b, parse).1)
  {
    Utf8.DecodeAppend(a, b);
    FeedSplit(buf, Utf8.Decode(a).value, Utf8.Decode(b).value, parse);
  }

  // ---------------------------------------------------------------------------
  // The client object

  class RatatoskrSocket {
    /** `stream.is_some()`: a connection is held. */
    var streamOpen: bool
    /** The socket path the client connects to. */
    const path: string
    /** The channel whose sending half is `tx` and whose receiving half is the public `rx`. */
    const chan: Channel<PartialMsg>
    /** `recv_buf`: text received but not yet terminated by a newline. */
    var recvBuf: string

    /** `RatatoskrSocket::new`. */
    constructor (path: string)
      ensures !streamOpen && this.path == path && recvBuf == []
      ensures fresh(chan) && chan.pending == []
    {
      streamOpen := false;
      this.path := path;
      chan := new Channel<PartialMsg>();
      recvBuf := [];
    }

    /** `try_connect`; `connectOk` is whether `UnixStream::connect` succeeds. */
    method TryConnect(connectOk: bool)
      modifies this`streamOpen, chan
      ensures old(streamOpen) ==> streamOpen && chan.pending == old(chan.pending)
      ensures !old(streamOpen) ==> streamOpen == connectOk
      ensures !old(streamOpen) && connectOk ==> chan.pending == old(chan.pending) + [ConnectedMsg]
      ensures !old(streamOpen) && !connectOk ==> chan.pending == old(chan.pending)
    {
      if streamOpen {
        return;
      }
      if connectOk {
        streamOpen := true;
        chan.Send(ConnectedMsg);
      }
    }

    /** `poll_messages`: without a connection, only try to connect; with one,
        act on the outcome `read` of one read. */
    method PollMessages(connectOk: bool, read: ReadResult, parse: Parser)
      requires read.Bytes? ==> |read.bytes| <= ReadBufferSize
      modifies this`streamOpen, this`recvBuf, chan
      ensures !old(streamOpen) ==>
        recvBuf == old(recvBuf) && streamOpen == connectOk && chan.pending == old(chan.pending) + (if connectOk then [ConnectedMsg] else [])
      ensures old(streamOpen) && read == Bytes([]) ==>
        !streamOpen && recvBuf == old(recvBuf) && chan.pending == old(chan.pending) + [DisconnectedMsg]
      ensures old(streamOpen) && read.Bytes? && read.bytes != [] ==>
        var (emitted, rest) := Receive(old(recvBuf), read.bytes, parse);
        streamOpen && recvBuf == rest && chan.pending == old(chan.pending) + emitted
      ensures old(streamOpen) && read == WouldBlock ==>
        streamOpen && recvBuf == old(recvBuf) && chan.pending == old(chan.pending)
      ensures old(streamOpen) && read == Failed ==>
        !streamOpen && recvBuf == old(recvBuf) && chan.pending == old(chan.pending)
    {
      if !streamOpen {
        TryConnect(connectOk);
        return;
      }
      match read
      case Bytes(bytes) =>
        if |bytes| == 0 {
          chan.Send(DisconnectedMsg);
          streamOpen := false;
        } else {
          match Utf8.Decode(bytes)
          case Some(chunk) =>
            ConsumeChunk(chunk, parse);
          case None =>
        }
      case WouldBlock =>
      case Failed =>
        streamOpen := false;
    }

    /** The body of the draining loop for one complete line: trim it and send
        its parse, unless it is blank or does not parse. */
    method EmitLine(line: string, parse: Parser)
      modifies chan
      ensures chan.pending == old(chan.pending) + LineRecord(line, parse)
    {
      var msg := Text.Trim(line);
      if msg != [] {
        match parse(msg)
        case Some(data) =>
          chan.Send(data);
        case None =>
      }
    }

    /** Append a decoded chunk to the buffer and drain every complete line. */
    method ConsumeChunk(chunk: string, parse: Parser)
      modifies this`recvBuf, chan
      ensures recvBuf == Feed(old(recvBuf), chunk, parse).1
      ensures chan.pending == old(chan.pending) + Feed(old(recvBuf), chunk, parse).0
    {
      ghost var total := recvBuf + chunk;
      ghost var done: seq<PartialMsg> := [];
      recvBuf := recvBuf + chunk;
      var next := Text.Find(recvBuf, '\n');
      while next.Some?
        invariant next == Text.Find(recvBuf, '\n')
        invariant Drained(total, done, recvBuf, parse)
        invariant chan.pending == old(chan.pending) + done
        decreases |recvBuf|
      {
        var pos := next.value;
        var line, rest := recvBuf[..pos], recvBuf[pos + 1..];
        DrainStep(total, done, recvBuf, pos, parse);
        EmitLine(line, parse);
        done := done + LineRecord(line, parse);
        recvBuf := rest;
        next := Text.Find(recvBuf, '\n');
      }
      DrainEnd(total, done, recvBuf, parse);
    }
  }

  /** Loop invariant of the draining: the records `done` already sent,
      followed by what the buffer `buf` still yields, are what `total` yields,
      and the buffer ends as `total` does. */
  ghost predicate Drained(total: string, done: seq<PartialMsg>, buf: string, parse: Parser)
  {
    Frame(buf).1 == Frame(total).1
    && done + Records(Frame(buf).0, parse) == Records(Frame(total).0, parse)
  }

  /** Draining the first complete line of `buf` keeps the invariant. */
  lemma DrainStep(total: string, done: seq<PartialMsg>, buf: string, pos: nat, parse: Parser)
    requires Text.Find(buf, '\n') == Some(pos)
    requires Drained(total, done, buf, parse)
    ensures Drained(total, done + LineRecord(buf[..pos], parse), buf[pos + 1..], parse)
  {
    var rest := buf[pos + 1..];
    FirstLine(buf, pos, parse);
    Regroup(done, LineRecord(buf[..pos], parse), Records(Frame(rest).0, parse), Records(Frame(total).0, parse));
  }

  lemma Regroup(done: seq<PartialMsg>, first: seq<PartialMsg>, later: seq<PartialMsg>, all: seq<PartialMsg>)
    requires done + (first + later) == all
    ensures (done + first) + later == all
  {
  }

  /** Framing a text whose first newline is at `pos`: the first line, then the
      framing of what follows. */
  lemma FirstLine(buf: string, pos: nat, parse: Parser)
    requires Text.Find(buf, '\n') == Some(pos)
    ensures Frame(buf).1 == Frame(buf[pos + 1..]).1
    ensures Records(Frame(buf).0, parse) == LineRecord(buf[..pos], parse) + Records(Frame(buf[pos + 1..]).0, parse)
  {
    var later := Frame(buf[pos + 1..]).0;
    assert Frame(buf).0 == [buf[..pos]] + later;
    assert ([buf[..pos]] + later)[1..] == later;
  }

  /** Once no newline is left, everything has been sent. */
  lemma DrainEnd(total: string, done: seq<PartialMsg>, buf: string, parse: Parser)
    requires Text.Find(buf, '\n').None?
    requires Drained(total, done, buf, parse)
    ensures buf == Frame(total).1 && done == Records(Frame(total).0, parse)
  {
    assert Frame(buf) == ([], buf);
  }
}
