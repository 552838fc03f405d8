/** Every interleaving of the reading task and its consumer. */
module LineReaderRuns {
  import opened Wrappers
  import opened Utf8
  import opened LineReader

  /** The whole system, with what the consumer has received so far: the bytes it was served and
      the messages it took from the channel. */
  datatype Pipeline = Pipeline(
    task: TaskState,
    channel: ChannelState,
    reader: ReaderState,
    delivered: seq<Byte>,
    taken: seq<Message>)

  function Initial(source: seq<Byte>): Pipeline {
    Pipeline(TaskState(source, None, false), ChannelState([], false), ReaderState([], 0), [], [])
  }

  datatype Event = TaskTurn | ConsumerPoll(cap: nat, answer: Poll)

  ghost predicate Step(s: Pipeline, e: Event, s': Pipeline, ending: Ending) {
    match e
    case TaskTurn =>
      && s'.reader == s.reader && s'.delivered == s.delivered && s'.taken == s.taken
      && TaskStep(s.task, s.channel, ending, s'.task, s'.channel)
    case ConsumerPoll(cap, answer) =>
      s.reader.pos <= |s.reader.buf|
      && var (reader', channel', r, bytes) := PollStep(s.reader, s.channel, cap);
         && answer == r && s'.task == s.task && s'.reader == reader' && s'.channel == channel'
         && s'.delivered == s.delivered + bytes
         && s'.taken == s.taken + (if s.reader.pos == |s.reader.buf| then s.channel.queue[..|s.channel.queue| - |channel'.queue|] else [])
  }

  /** A run: states linked by steps, from the initial state of a source. */
  ghost predicate IsRun(states: seq<Pipeline>, events: seq<Event>, source: seq<Byte>, ending: Ending) {
    && |states| == |events| + 1
    && states[0] == Initial(source)
    && forall i | 0 <= i < |events| :: Step(states[i], events[i], states[i + 1], ending)
  }

  // ------------------------------------------------------------ what a source stands for

  /** The messages that a source yields: its lines in order, then at most one error. */
  ghost function Messages(s: seq<Byte>, ending: Ending): seq<Message>
    decreases |s|
  {
    match NextLine(s, ending)
    case Failure(e) => [Failure(e)]
    case Line(line) => if line == [] then [] else [Line(line)] + Messages(s[|line|..], ending)
  }

  function BytesOf(ms: seq<Message>): seq<Byte> {
    if ms == [] then []
    else (match ms[0] case Line(b) => b case Failure(_) => []) + BytesOf(ms[1..])
  }

  function Waiting(outbox: Option<Message>): seq<Message> {
    match outbox case None => [] case Some(m) => [m]
  }

  /** No line exceeds the cap and the stream ends well. */
  ghost predicate Readable(s: seq<Byte>, ending: Ending) {
    forall m | m in Messages(s, ending) :: m.Line?
  }

  lemma {:induction false} BytesConcat(a: seq<Message>, b: seq<Message>)
    ensures BytesOf(a + b) == BytesOf(a) + BytesOf(b)
  {
    if a == [] {
      assert a + b == b;
    } else {
      assert (a + b)[1..] == a[1..] + b;
      BytesConcat(a[1..], b);
    }
  }

  /** The lines of a readable source are the source. */
  lemma {:induction false} ReadableBytes(s: seq<Byte>, ending: Ending)
    requires Readable(s, ending)
    ensures BytesOf(Messages(s, ending)) == s
    decreases |s|
  {
    NextMessages(s, ending);
    hide Messages, NextLine;
    var m := NextLine(s, ending);
    var ms := Messages(s, ending);
    if m.Line? && m.bytes != [] {
      var rest := Messages(s[|m.bytes|..], ending);
      assert ms[0] == m && ms[1..] == rest;
      ReadableBytes(s[|m.bytes|..], ending);
      LineStarts(s, ending);
    } else {
      assert m in [m];
      EmptyLineMeansEnd(s, ending);
    }
  }

  lemma LineStarts(s: seq<Byte>, ending: Ending)
    ensures var m := NextLine(s, ending);
      m.Line? ==> |m.bytes| <= |s| && s == m.bytes + s[|m.bytes|..]
  {
  }

  lemma EmptyLineMeansEnd(s: seq<Byte>, ending: Ending)
    ensures NextLine(s, ending) == Line([]) ==> s == []
  {
  }

  // ------------------------------------------------------------ the invariant

  /** Messages still to come, in the order in which the consumer will take them. */
  ghost function ToCome(s: Pipeline, ending: Ending): seq<Message> {
    s.channel.queue + Waiting(s.task.outbox) + (if s.task.failed then [] else Messages(s.task.unread, ending))
  }

  ghost predicate Inv(s: Pipeline, source: seq<Byte>, ending: Ending) {
    // nothing is lost, duplicated or reordered
    && s.taken + ToCome(s, ending) == Messages(source, ending)
    // the bytes of the messages taken are served, up to the rest of the line being served
    && s.reader.pos <= |s.reader.buf|
    && s.delivered + s.reader.buf[s.reader.pos..] == BytesOf(s.taken)
    // a kept line is never used up
    && (s.reader.buf == [] ==> s.reader.pos == 0) && (s.reader.buf != [] ==> s.reader.pos < |s.reader.buf|)
    // a closed channel gets no more messages
    && (s.channel.closed ==> s.task.outbox.None? && (s.task.failed || Messages(s.task.unread, ending) == []))
    // an error is the last thing the task sends
    && (forall m | m in s.channel.queue || m in s.taken :: m.Failure? ==> s.task.failed && s.task.outbox.None?)
    // an error waits to be sent exactly while the task has failed
    && (s.task.outbox.Some? ==> (s.task.outbox.value.Failure? <==> s.task.failed))
    // the task fails only on a source that is not readable
    && (s.task.failed ==> !Readable(source, ending))
    && |s.channel.queue| <= CHANNEL_CAPACITY
  }

  lemma NextMessages(s: seq<Byte>, ending: Ending)
    ensures var m := NextLine(s, ending);
      && (m.Failure? ==> Messages(s, ending) == [m])
      && (m.Line? && m.bytes == [] ==> Messages(s, ending) == [])
      && (m.Line? && m.bytes != [] ==>
          |m.bytes| <= |s| && Messages(s, ending) == [m] + Messages(s[|m.bytes|..], ending))
  {
  }

  lemma ReadKeepsInv(s: Pipeline, s': Pipeline, source: seq<Byte>, ending: Ending)
    requires Inv(s, source, ending)
    requires s'.reader == s.reader && s'.delivered == s.delivered && s'.taken == s.taken
    requires ReadStep(s.task, s.channel, ending, s'.task, s'.channel)
    ensures Inv(s', source, ending)
  {
    NextMessages(s.task.unread, ending);
    hide Messages, NextLine, BytesOf;
    var q := s.channel.queue;
    match NextLine(s.task.unread, ending) {
      case Failure(e) =>
        assert q + [] + [Failure(e)] == q + [Failure(e)] + [];
        var all := s.taken + (q + [Failure(e)] + []);
        assert all[|all| - 1] == Failure(e) && all[|all| - 1] in all;
      case Line(line) =>
        if line != [] {
          var rest := Messages(s.task.unread[|line|..], ending);
          assert q + [] + ([Line(line)] + rest) == q + [Line(line)] + rest;
        }
    }
  }

  lemma SendKeepsInv(s: Pipeline, s': Pipeline, source: seq<Byte>, ending: Ending)
    requires Inv(s, source, ending)
    requires s'.reader == s.reader && s'.delivered == s.delivered && s'.taken == s.taken
    requires SendStep(s.task, s.channel, s'.task, s'.channel)
    ensures Inv(s', source, ending)
  {
    hide Messages, BytesOf;
    var m := s.task.outbox.value;
    var rest := if s.task.failed then [] else Messages(s.task.unread, ending);
    assert s.channel.queue + [m] + rest == (s.channel.queue + [m]) + [] + rest;
  }

  lemma CloseKeepsInv(s: Pipeline, s': Pipeline, source: seq<Byte>, ending: Ending)
    requires Inv(s, source, ending)
    requires s'.reader == s.reader && s'.delivered == s.delivered && s'.taken == s.taken
    requires CloseStep(s.task, s.channel, s'.task, s'.channel)
    ensures Inv(s', source, ending)
  {
    hide Messages, BytesOf, Readable;
  }

  lemma PollKeepsInv(s: Pipeline, s': Pipeline, cap: nat, answer: Poll, source: seq<Byte>, ending: Ending)
    requires Inv(s, source, ending) && Step(s, ConsumerPoll(cap, answer), s', ending)
    ensures Inv(s', source, ending)
  {
    hide Messages, BytesOf;
    if s.reader.pos < |s.reader.buf| {
      PollServes(s, s', cap, answer, source, ending);
    } else if s.channel.queue != [] {
      PollTakes(s, s', cap, answer, source, ending);
    } else {
      assert s.taken + s.channel.queue[..0] == s.taken && s.delivered + [] == s.delivered;
    }
  }

  lemma PollServes(s: Pipeline, s': Pipeline, cap: nat, answer: Poll, source: seq<Byte>, ending: Ending)
    requires Inv(s, source, ending) && Step(s, ConsumerPoll(cap, answer), s', ending)
    requires s.reader.pos < |s.reader.buf|
    ensures Inv(s', source, ending)
  {
    hide Messages, BytesOf, Readable;
    var r := s.reader;
    var n := if |r.buf| - r.pos < cap then |r.buf| - r.pos else cap;
    Served(s.delivered, r.buf, r.pos, n);
    assert s.taken + [] == s.taken;
    assert s'.taken == s.taken;
    assert s'.delivered + s'.reader.buf[s'.reader.pos..] == s.delivered + r.buf[r.pos..];
  }

  lemma PollTakes(s: Pipeline, s': Pipeline, cap: nat, answer: Poll, source: seq<Byte>, ending: Ending)
    requires Inv(s, source, ending) && Step(s, ConsumerPoll(cap, answer), s', ending)
    requires s.reader.pos == |s.reader.buf| && s.channel.queue != []
    ensures Inv(s', source, ending)
  {
    hide Messages, BytesOf, Readable;
    var q := s.channel.queue;
    var later := Waiting(s.task.outbox) + (if s.task.failed then [] else Messages(s.task.unread, ending));
    assert q[..|q| - |q[1..]|] == [q[0]];
    assert s'.taken == s.taken + [q[0]] && s'.channel.queue == q[1..];
    TakeFirst(s.taken, q, later);
    assert ToCome(s, ending) == q + later && ToCome(s', ending) == q[1..] + later;
    BytesConcat(s.taken, [q[0]]);
    BytesOfOne(q[0]);
    assert s.delivered + s.reader.buf[s.reader.pos..] == s.delivered;
    hide ToCome;
    if q[0].Line? {
      var line := q[0].bytes;
      var n := if |line| < cap then |line| else cap;
      assert line == line[..n] + line[n..];
      assert s.delivered + line[..n] + line[n..] == s.delivered + line;
    }
  }

  lemma BytesOfOne(m: Message)
    ensures BytesOf([m]) == if m.Line? then m.bytes else []
  {
    assert [m][1..] == [];
  }

  lemma Served(delivered: seq<Byte>, buf: seq<Byte>, pos: nat, n: nat)
    requires pos + n <= |buf|
    ensures delivered + buf[pos..] == delivered + buf[pos..pos + n] + buf[pos + n..]
    ensures pos + n == |buf| ==> buf[pos + n..] == []
  {
  }

  lemma TakeFirst(taken: seq<Message>, q: seq<Message>, rest: seq<Message>)
    requires q != []
    ensures taken + (q + rest) == (taken + [q[0]]) + (q[1..] + rest)
  {
  }

  // ------------------------------------------------------------ every run

  lemma {:induction false} RunKeepsInv(states: seq<Pipeline>, events: seq<Event>, source: seq<Byte>, ending: Ending, n: nat)
    requires IsRun(states, events, source, ending) && n < |states|
    ensures Inv(states[n], source, ending)
  {
    if n == 0 {
      InitialInv(source, ending);
    } else {
      RunKeepsInv(states, events, source, ending, n - 1);
      var s, s', e := states[n - 1], states[n], events[n - 1];
      assert Step(s, e, s', ending);
      hide Inv;
      match e {
        case ConsumerPoll(cap, answer) =>
          PollKeepsInv(s, s', cap, answer, source, ending);
        case TaskTurn =>
          if ReadStep(s.task, s.channel, ending, s'.task, s'.channel) {
            ReadKeepsInv(s, s', source, ending);
          } else if SendStep(s.task, s.channel, s'.task, s'.channel) {
            SendKeepsInv(s, s', source, ending);
          } else {
            CloseKeepsInv(s, s', source, ending);
          }
      }
    }
  }

  lemma InitialInv(source: seq<Byte>, ending: Ending)
    ensures Inv(Initial(source), source, ending)
  {
    hide Messages;
    assert [] + ToCome(Initial(source), ending) == Messages(source, ending);
  }

  /** What the consumer has been served is a prefix of the good lines, in every reachable state. */
  ghost function GoodBytes(source: seq<Byte>, ending: Ending): seq<Byte> {
    BytesOf(Messages(source, ending))
  }

  /** Conservation: delivered bytes, the unread part of the current line, the queued lines, the
      line being sent and what the task has yet to read make up the source, for every chunking,
      interleaving and sequence of read sizes. */
  lemma Conservation(states: seq<Pipeline>, events: seq<Event>, source: seq<Byte>, ending: Ending, n: nat)
    requires IsRun(states, events, source, ending) && n < |states| && Readable(source, ending)
    ensures var s := states[n];
      && s.reader.pos <= |s.reader.buf| && !s.task.failed
      && s.delivered + s.reader.buf[s.reader.pos..] + BytesOf(s.channel.queue)
         + BytesOf(Waiting(s.task.outbox)) + s.task.unread == source
  {
    RunKeepsInv(states, events, source, ending, n);
    var s := states[n];
    var q, w := s.channel.queue, Waiting(s.task.outbox);
    var rest := Messages(s.task.unread, ending);
    assert s.taken + (q + w + rest) == Messages(source, ending);
    forall m | m in rest ensures m.Line? {
      assert m in s.taken + (q + w + rest);
    }
    ReadableBytes(source, ending);
    ReadableBytes(s.task.unread, ending);
    hide Messages, Readable;
    BytesConcat(s.taken, q + w + rest);
    BytesConcat(q + w, rest);
    BytesConcat(q, w);
    Flatten(s.delivered + s.reader.buf[s.reader.pos..], BytesOf(q), BytesOf(w), s.task.unread);
  }

  lemma Flatten(a: seq<Byte>, b: seq<Byte>, c: seq<Byte>, d: seq<Byte>)
    ensures a + ((b + c) + d) == a + b + c + d
  {
  }

  /** A poll answers Pending only when no byte of a started line is left and no message waits,
      so everything delivered is whole lines; and then the task is still able to move. */
  lemma PendingOnlyBetweenLines(states: seq<Pipeline>, events: seq<Event>, source: seq<Byte>, ending: Ending, n: nat, cap: nat)
    requires IsRun(states, events, source, ending) && n < |events| && events[n] == ConsumerPoll(cap, Pending)
    ensures var s := states[n];
      && states[n + 1] == s && s.reader.buf == [] && s.channel.queue == []
      && s.delivered == BytesOf(s.taken) && s.taken <= Messages(source, ending)
      && exists t: TaskState, ch: ChannelState :: TaskStep(s.task, s.channel, ending, t, ch)
  {
    RunKeepsInv(states, events, source, ending, n);
    var s := states[n];
    assert Step(s, events[n], states[n + 1], ending);
    hide Messages, BytesOf, NextLine;
    assert s.delivered + [] == s.delivered && s.taken + s.channel.queue[..0] == s.taken;
    if s.task.outbox.Some? {
      var t, ch := s.task.(outbox := None), s.channel.(queue := s.channel.queue + [s.task.outbox.value]);
      assert TaskStep(s.task, s.channel, ending, t, ch);
    } else if s.task.failed {
      assert TaskStep(s.task, s.channel, ending, s.task, s.channel.(closed := true));
    } else {
      var t, ch := Reading(s.task, s.channel, ending);
      assert TaskStep(s.task, s.channel, ending, t, ch);
    }
  }

  /** A task that waits for nothing can read. */
  lemma Reading(t: TaskState, ch: ChannelState, ending: Ending) returns (t': TaskState, ch': ChannelState)
    requires t.outbox.None? && !t.failed && !ch.closed
    ensures ReadStep(t, ch, ending, t', ch')
  {
    match NextLine(t.unread, ending)
    case Failure(e) =>
      t', ch' := TaskState([], Some(Failure(e)), true), ch;
    case Line(line) =>
      if line == [] {
        t', ch' := t, ch.(closed := true);
      } else {
        t', ch' := TaskState(t.unread[|line|..], Some(Line(line)), false), ch;
      }
  }

  /** Zero bytes into a non-empty buffer mean end of stream: every message of the source has been
      taken and every byte of its good lines delivered, which is the whole source if it is
      readable. From then on every poll says the same. */
  lemma ZeroMeansEnd(states: seq<Pipeline>, events: seq<Event>, source: seq<Byte>, ending: Ending, n: nat, cap: nat)
    requires IsRun(states, events, source, ending) && n < |events|
    requires cap > 0 && events[n] == ConsumerPoll(cap, Ready(Ok(0)))
    ensures var s := states[n];
      && s.taken == Messages(source, ending) && s.delivered == GoodBytes(source, ending)
      && (Readable(source, ending) ==> s.delivered == source)
      && s.channel == ChannelState([], true) && s.reader == ReaderState([], 0) && states[n + 1] == s
  {
    RunKeepsInv(states, events, source, ending, n);
    var s := states[n];
    assert Step(s, events[n], states[n + 1], ending);
    if s.channel.queue != [] {
      LinesAreNotEmpty(source, ending);
      var m := s.channel.queue[0];
      assert m in s.taken + ToCome(s, ending) by {
        assert (s.taken + ToCome(s, ending))[|s.taken|] == m;
      }
      assert false;
    }
    if Readable(source, ending) {
      ReadableBytes(source, ending);
    }
    hide Messages, BytesOf;
    assert s.taken + ([] + [] + []) == s.taken;
    assert s.delivered + [] == s.delivered && s.taken + s.channel.queue[..0] == s.taken;
  }

  lemma {:induction false} LinesAreNotEmpty(s: seq<Byte>, ending: Ending)
    ensures forall m | m in Messages(s, ending) && m.Line? :: m.bytes != []
    decreases |s|
  {
    NextMessages(s, ending);
    match NextLine(s, ending)
    case Failure(e) =>
    case Line(line) =>
      if line != [] {
        LinesAreNotEmpty(s[|line|..], ending);
      }
  }

  lemma {:induction false} FailureIsLast(s: seq<Byte>, ending: Ending, i: nat)
    requires i < |Messages(s, ending)| && Messages(s, ending)[i].Failure?
    ensures i == |Messages(s, ending)| - 1
    decreases |s|
  {
    NextMessages(s, ending);
    hide Messages;
    var m := NextLine(s, ending);
    if m.Line? && m.bytes != [] && i > 0 {
      FailureIsLast(s[|m.bytes|..], ending, i - 1);
    }
  }

  lemma EndsWith<T>(all: seq<T>, front: seq<T>, rest: seq<T>, x: T)
    requires all == front + rest && |rest| == 1 && rest[0] == x
    ensures all == front + [x] && all[|all| - 1..] == [x]
  {
  }

  /** Nothing is queued, kept or waiting, and the task reads no more: all it can still do is to
      close the channel. */
  ghost predicate Ended(s: Pipeline) {
    && s.channel.queue == [] && s.reader == ReaderState([], 0)
    && (s.channel.closed || (s.task.failed && s.task.outbox.None?))
  }

  /** An error reaches the consumer only after all good lines, is the last message, and leaves
      the stream at its end. */
  lemma ErrorComesLast(states: seq<Pipeline>, events: seq<Event>, source: seq<Byte>, ending: Ending, n: nat, cap: nat, e: ReadError)
    requires IsRun(states, events, source, ending) && n < |events|
    requires events[n] == ConsumerPoll(cap, Ready(Err(e)))
    ensures var s' := states[n + 1];
      && s'.taken == Messages(source, ending) && s'.taken[|s'.taken| - 1..] == [Failure(e)]
      && s'.delivered == GoodBytes(source, ending) && Ended(s')
  {
    RunKeepsInv(states, events, source, ending, n);
    RunKeepsInv(states, events, source, ending, n + 1);
    var s, s' := states[n], states[n + 1];
    assert Step(s, events[n], s', ending);
    hide Messages, BytesOf;
    var all := s.taken + ToCome(s, ending);
    assert s.channel.queue != [] && s.channel.queue[0] == Failure(e);
    var ms := Messages(source, ending);
    assert ms == all && ms[|s.taken|] == Failure(e);
    FailureIsLast(source, ending, |s.taken|);
    assert s'.taken == s.taken + [Failure(e)];
    EndsWith(all, s.taken, ToCome(s, ending), Failure(e));
    assert s'.delivered + s'.reader.buf[s'.reader.pos..] == s'.delivered;
  }

  lemma EndedStep(s: Pipeline, e: Event, s': Pipeline, ending: Ending)
    requires Ended(s) && Step(s, e, s', ending)
    ensures s' == s.(channel := s'.channel) && Ended(s')
    ensures e.ConsumerPoll? ==> s'.channel == s.channel && e.answer == if s.channel.closed then Ready(Ok(0)) else Pending
    ensures e.TaskTurn? ==> !s.channel.closed && s'.channel.closed
  {
    assert s.delivered + [] == s.delivered && s.taken + s.channel.queue[..0] == s.taken;
  }

  /** Once at its end, the pipeline changes only by closing its channel, for the rest of the run. */
  lemma {:induction false} EndStays(states: seq<Pipeline>, events: seq<Event>, source: seq<Byte>, ending: Ending, n: nat, m: nat)
    requires IsRun(states, events, source, ending) && n <= m < |states| && Ended(states[n])
    ensures states[m] == states[n].(channel := states[m].channel) && Ended(states[m])
    ensures states[n].channel.closed ==> states[m].channel.closed
  {
    if n < m {
      EndStays(states, events, source, ending, n, m - 1);
      assert Step(states[m - 1], events[m - 1], states[m], ending);
      hide Step, Ended;
      EndedStep(states[m - 1], events[m - 1], states[m], ending);
    }
  }

  /** End of stream is for ever: once a poll into a non-empty buffer has answered zero bytes,
      every later event of the run is a poll that answers zero bytes, and nothing changes. */
  lemma EndIsForever(states: seq<Pipeline>, events: seq<Event>, source: seq<Byte>, ending: Ending, n: nat, cap: nat, m: nat)
    requires IsRun(states, events, source, ending) && n < m < |events|
    requires cap > 0 && events[n] == ConsumerPoll(cap, Ready(Ok(0)))
    ensures events[m].ConsumerPoll? && events[m].answer == Ready(Ok(0)) && states[m + 1] == states[n]
  {
    ZeroMeansEnd(states, events, source, ending, n, cap);
    EndStays(states, events, source, ending, n, m);
    EndStays(states, events, source, ending, n, m + 1);
    assert Step(states[m], events[m], states[m + 1], ending);
    hide Step, IsRun, Messages, BytesOf, Readable, GoodBytes;
    EndedStep(states[m], events[m], states[m + 1], ending);
  }

  /** One error, then end of stream for ever: after an error nothing more is delivered or taken.
      The task closes the channel once; a poll before that is pending, with the task still able
      to close it, and every poll after that answers zero bytes. */
  lemma ErrorThenEnd(states: seq<Pipeline>, events: seq<Event>, source: seq<Byte>, ending: Ending, n: nat, cap: nat, e: ReadError, m: nat)
    requires IsRun(states, events, source, ending) && n < m < |events|
    requires events[n] == ConsumerPoll(cap, Ready(Err(e)))
    ensures var s, s', last := states[m], states[m + 1], states[n + 1];
      && s'.delivered == last.delivered == GoodBytes(source, ending) && s'.taken == last.taken == Messages(source, ending)
      && (s.channel.closed ==>
           events[m].ConsumerPoll? && events[m].answer == Ready(Ok(0)) && s' == s)
      && (!s.channel.closed ==>
           && (events[m].ConsumerPoll? ==> events[m].answer == Pending && s' == s)
           && (events[m].TaskTurn? ==> s'.channel.closed)
           && CloseStep(s.task, s.channel, s.task, ChannelState([], true)))
  {
    ErrorComesLast(states, events, source, ending, n, cap, e);
    EndStays(states, events, source, ending, n + 1, m);
    EndStays(states, events, source, ending, n + 1, m + 1);
    assert Step(states[m], events[m], states[m + 1], ending);
    hide Step, IsRun, Messages, BytesOf, Readable, GoodBytes;
    EndedStep(states[m], events[m], states[m + 1], ending);
  }
}
