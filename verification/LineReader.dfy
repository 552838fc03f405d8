/** The cancel-safe line reader: a task that reads capped lines and sends them through a
    bounded channel, and a reader that serves their bytes. */
module LineReader {
  import opened Wrappers
  import opened Utf8

  const NEWLINE: Byte := 10
  const MAX_LINE_SIZE: nat := 64 * 1024 * 1024
  /** `mpsc::channel(64)` holds 64 messages plus one for its single sender. */
  const CHANNEL_CAPACITY: nat := 65

  datatype ReadError = TooLong | Io

  /** How the byte stream ends once all its bytes are read. */
  datatype Ending = Eof | Failing

  datatype Message = Line(bytes: seq<Byte>) | Failure(error: ReadError)

  // ------------------------------------------------------------ lines

  /** Index right behind the first newline, or the length. */
  function LineEnd(s: seq<Byte>): (n: nat)
    ensures n <= |s| && (s != [] ==> n > 0)
  {
    if s == [] then 0 else if s[0] == NEWLINE then 1 else 1 + LineEnd(s[1..])
  }

  predicate Terminated(s: seq<Byte>) {
    s != [] && s[|s| - 1] == NEWLINE
  }

  /** What reading the next line yields, as a function of the unread bytes alone. The empty
      line means end of stream. */
  function NextLine(s: seq<Byte>, ending: Ending): Message {
    var line := s[..LineEnd(s)];
    if |line| > MAX_LINE_SIZE then Failure(TooLong)
    else if ending.Failing? && !Terminated(line) then Failure(Io)
    else Line(line)
  }

  lemma {:induction false} LineEndIs(a: seq<Byte>, b: seq<Byte>)
    requires NEWLINE !in a
    ensures LineEnd(a + b) == |a| + LineEnd(b)
  {
    if a == [] {
      assert a + b == b;
    } else {
      assert (a + b)[1..] == a[1..] + b;
      assert a[0] in a;
      LineEndIs(a[1..], b);
    }
  }

  lemma {:induction false} LineEndAt(s: seq<Byte>, n: nat)
    requires n < |s| && s[n] == NEWLINE && NEWLINE !in s[..n]
    ensures LineEnd(s) == n + 1
  {
    assert s == s[..n] + s[n..];
    LineEndIs(s[..n], s[n..]);
  }

  // ------------------------------------------------------------ the byte source

  /** An `AsyncBufRead`: every fill exposes some non-empty prefix of the unread bytes, chosen by
      the environment. */
  class Source {
    var unread: seq<Byte>
    const ending: Ending

    constructor (bytes: seq<Byte>, ending: Ending)
      ensures unread == bytes && this.ending == ending
    {
      unread := bytes;
      this.ending := ending;
    }

    method FillBuf() returns (r: Result<seq<Byte>, ReadError>)
      ensures unread != [] ==> r.Ok? && 0 < |r.value| <= |unread| && r.value == unread[..|r.value|]
      ensures unread == [] ==> r == if ending.Eof? then Ok([]) else Err(Io)
    {
      if unread != [] {
        var n: nat :| 0 < n <= |unread|;
        r := Ok(unread[..n]);
      } else {
        r := if ending.Eof? then Ok([]) else Err(Io);
      }
    }

    method Consume(n: nat)
      requires n <= |unread|
      modifies this
      ensures unread == old(unread)[n..]
    {
      unread := unread[n..];
    }
  }

  /** `Iterator::position` of the first newline. */
  method FirstNewline(s: seq<Byte>) returns (r: Option<nat>)
    ensures r.None? ==> NEWLINE !in s
    ensures r.Some? ==> r.value < |s| && s[r.value] == NEWLINE && NEWLINE !in s[..r.value]
  {
    var i := 0;
    while i < |s|
      invariant i <= |s| && NEWLINE !in s[..i]
    {
      if s[i] == NEWLINE {
        return Some(i);
      }
      assert s[..i + 1] == s[..i] + [s[i]];
      i := i + 1;
    }
    assert s[..i] == s;
    r := None;
  }

  /** `read_line_capped`: whatever the chunks, it yields `NextLine` of the unread bytes, and on
      success consumes exactly the line. */
  method ReadLineCapped(reader: Source) returns (r: Result<nat, ReadError>, buf: seq<Byte>)
    modifies reader
    ensures match NextLine(old(reader.unread), reader.ending)
      case Line(line) =>
        r == Ok(|line|) && buf == line && reader.unread == old(reader.unread)[|line|..]
      case Failure(e) =>
        r == Err(e) && buf + reader.unread == old(reader.unread)
  {
    buf := [];
    ghost var all := reader.unread;
    while true
      invariant buf + reader.unread == all && NEWLINE !in buf && |buf| <= MAX_LINE_SIZE
      decreases |reader.unread|
    {
      var available := reader.FillBuf();
      ghost var unread := reader.unread;
      if available.Err? {
        LineEndIs(buf, []);
        assert all == buf && buf + [] == buf;
        return Err(available.error), buf;
      }
      var chunk := available.value;
      if chunk == [] {
        LineEndIs(buf, []);
        assert all == buf && buf + [] == buf;
        return Ok(|buf|), buf;
      }
      var newline := FirstNewline(chunk);
      var consumed := if newline.Some? then newline.value + 1 else |chunk|;
      ghost var before := buf;
      buf := buf + chunk[..consumed];
      reader.Consume(consumed);
      Grow(all, before, unread, chunk, consumed);
      if newline.Some? {
        CompleteLine(all, before, unread, chunk, newline.value);
      } else {
        assert chunk[..consumed] == chunk;
        if |buf| > MAX_LINE_SIZE {
          LineEndIs(buf, reader.unread);
        }
      }
      if |buf| > MAX_LINE_SIZE {
        return Err(TooLong), buf;
      }
      if newline.Some? {
        return Ok(|buf|), buf;
      }
    }
  }

  lemma Grow(all: seq<Byte>, buf: seq<Byte>, unread: seq<Byte>, chunk: seq<Byte>, n: nat)
    requires all == buf + unread && |chunk| <= |unread| && chunk == unread[..|chunk|] && n <= |chunk|
    ensures all == buf + chunk[..n] + unread[n..]
  {
  }

  lemma CompleteLine(all: seq<Byte>, buf: seq<Byte>, unread: seq<Byte>, chunk: seq<Byte>, n: nat)
    requires all == buf + unread && |chunk| <= |unread| && chunk == unread[..|chunk|] && NEWLINE !in buf
    requires n < |chunk| && chunk[n] == NEWLINE && NEWLINE !in chunk[..n]
    ensures var line := buf + chunk[..n + 1];
      LineEnd(all) == |line| && all[..|line|] == line && Terminated(line) && all[|line|..] == unread[n + 1..]
  {
    LineEndIs(buf, unread);
    assert unread[..n] == chunk[..n];
    LineEndAt(unread, n);
  }

  // ------------------------------------------------------------ channel, task and reader

  class Channel {
    var queue: seq<Message>
    var closed: bool

    constructor ()
      ensures queue == [] && !closed
    {
      queue, closed := [], false;
    }
  }

  /** The producer's side: what it has not read, what it is trying to send, and whether it has
      stopped reading after an error. */
  datatype TaskState = TaskState(unread: seq<Byte>, outbox: Option<Message>, failed: bool)

  /** The consumer's side. */
  datatype ReaderState = ReaderState(buf: seq<Byte>, pos: nat)

  datatype ChannelState = ChannelState(queue: seq<Message>, closed: bool)

  datatype Poll = Pending | Ready(result: Result<nat, ReadError>)

  /** One turn of the task that reads: allowed when nothing waits to be sent. */
  ghost predicate ReadStep(t: TaskState, ch: ChannelState, ending: Ending, t': TaskState, ch': ChannelState) {
    && t.outbox.None? && !t.failed && !ch.closed
    && match NextLine(t.unread, ending)
       case Line(line) =>
         if line == [] then t' == t && ch' == ch.(closed := true)
         else t' == TaskState(t.unread[|line|..], Some(Line(line)), false) && ch' == ch
       case Failure(e) => t'.outbox == Some(Failure(e)) && t'.failed && ch' == ch
  }

  /** One turn of the task that sends: allowed when the channel has room. Sending waits for
      room once more before it completes, so even after an error the channel is not yet closed. */
  ghost predicate SendStep(t: TaskState, ch: ChannelState, t': TaskState, ch': ChannelState) {
    && t.outbox.Some? && |ch.queue| < CHANNEL_CAPACITY && !ch.closed
    && t' == t.(outbox := None) && ch' == ch.(queue := ch.queue + [t.outbox.value])
  }

  /** The turn in which a task that has sent an error ends and drops its sender. */
  ghost predicate CloseStep(t: TaskState, ch: ChannelState, t': TaskState, ch': ChannelState) {
    t.failed && t.outbox.None? && !ch.closed && t' == t && ch' == ch.(closed := true)
  }

  ghost predicate TaskStep(t: TaskState, ch: ChannelState, ending: Ending, t': TaskState, ch': ChannelState) {
    ReadStep(t, ch, ending, t', ch') || SendStep(t, ch, t', ch') || CloseStep(t, ch, t', ch')
  }

  /** `poll_read` into a buffer of `cap` bytes: new states, answer, bytes served. */
  function PollStep(r: ReaderState, ch: ChannelState, cap: nat): (ReaderState, ChannelState, Poll, seq<Byte>)
    requires r.pos <= |r.buf|
  {
    if r.pos < |r.buf| then
      var n := if |r.buf| - r.pos < cap then |r.buf| - r.pos else cap;
      (if r.pos + n >= |r.buf| then ReaderState([], 0) else r.(pos := r.pos + n),
       ch, Ready(Ok(n)), r.buf[r.pos..r.pos + n])
    else if ch.queue == [] then
      (r, ch, if ch.closed then Ready(Ok(0)) else Pending, [])
    else
      var ch' := ch.(queue := ch.queue[1..]);
      match ch.queue[0]
      case Failure(e) => (r, ch', Ready(Err(e)), [])
      case Line(line) =>
        var n := if |line| < cap then |line| else cap;
        (if n < |line| then ReaderState(line, n) else r, ch', Ready(Ok(n)), line[..n])
  }

  class ReaderTask {
    const source: Source
    const tx: Channel
    var outbox: Option<Message>
    var failed: bool

    ghost function State(): TaskState
      reads this, source
    {
      TaskState(source.unread, outbox, failed)
    }

    constructor (source: Source, tx: Channel)
      ensures this.source == source && this.tx == tx && outbox == None && !failed
    {
      this.source, this.tx, outbox, failed := source, tx, None, false;
    }

    /** The loop body up to the next suspension point. */
    method Turn() returns (moved: bool)
      modifies this, source, tx
      ensures var was := ChannelState(old(tx.queue), old(tx.closed)); var now := ChannelState(tx.queue, tx.closed);
        if moved then TaskStep(old(State()), was, source.ending, State(), now)
        else State() == old(State()) && now == was && (was.closed || |was.queue| >= CHANNEL_CAPACITY)
    {
      if tx.closed {
        return false;
      }
      if outbox.None? && failed {
        tx.closed := true;
        return true;
      }
      if outbox.None? {
        var r, line := ReadLineCapped(source);
        match r {
          case Ok(n) =>
            if n == 0 {
              tx.closed := true;
            } else {
              outbox := Some(Line(line));
            }
          case Err(e) =>
            outbox, failed := Some(Failure(e)), true;
        }
        return true;
      }
      if |tx.queue| < CHANNEL_CAPACITY {
        tx.queue := tx.queue + [outbox.value];
        outbox := None;
        return true;
      }
      return false;
    }
  }

  class LineBufferedRead {
    var buf: seq<Byte>
    var pos: nat
    const rx: Channel

    constructor (rx: Channel)
      ensures buf == [] && pos == 0 && this.rx == rx
    {
      buf, pos := [], 0;
      this.rx := rx;
    }

    /** `poll_read`. */
    method PollRead(dst: array<Byte>) returns (r: Poll)
      requires pos <= |buf|
      modifies this, rx, dst
      ensures pos <= |buf|
      ensures var (reader', channel', answer, bytes) :=
          PollStep(ReaderState(old(buf), old(pos)), ChannelState(old(rx.queue), old(rx.closed)), dst.Length);
        && ReaderState(buf, pos) == reader' && ChannelState(rx.queue, rx.closed) == channel' && r == answer
        && |bytes| <= dst.Length && dst[..|bytes|] == bytes && dst[|bytes|..] == old(dst[|bytes|..])
    {
      if pos < |buf| {
        var avail := |buf| - pos;
        var n := if avail < dst.Length then avail else dst.Length;
        CopyInto(dst, buf[pos..pos + n]);
        pos := pos + n;
        if pos >= |buf| {
          buf, pos := [], 0;
        }
        return Ready(Ok(n));
      }
      if rx.queue == [] {
        return if rx.closed then Ready(Ok(0)) else Pending;
      }
      var message := rx.queue[0];
      rx.queue := rx.queue[1..];
      match message {
        case Failure(e) =>
          return Ready(Err(e));
        case Line(line) =>
          var n := if |line| < dst.Length then |line| else dst.Length;
          CopyInto(dst, line[..n]);
          if n < |line| {
            buf, pos := line, n;
          }
          return Ready(Ok(n));
      }
    }
  }

  /** `copy_from_slice` into the front of a buffer. */
  method CopyInto(dst: array<Byte>, bytes: seq<Byte>)
    requires |bytes| <= dst.Length
    modifies dst
    ensures dst[..|bytes|] == bytes && dst[|bytes|..] == old(dst[|bytes|..])
  {
    forall i | 0 <= i < |bytes| {
      dst[i] := bytes[i];
    }
  }
}
