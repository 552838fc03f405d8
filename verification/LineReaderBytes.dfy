/** Which byte streams are readable, where the reading of the others stops and why, told from
    the bytes alone. */
module LineReaderBytes {
  import opened Wrappers
  import opened Utf8
  import opened LineReader
  import opened LineReaderRuns

  /** No newline between `i` and `j`, except perhaps as the last byte. */
  ghost predicate OnOneLine(s: seq<Byte>, i: nat, j: nat) {
    i < j <= |s| && 10 !in s[i..j - 1]
  }

  /** Some line is longer than 64 MiB, its newline included. */
  ghost predicate HasLongLine(s: seq<Byte>) {
    exists i: nat, j: nat :: OnOneLine(s, i, j) && j - i > 67_108_864
  }

  lemma {:induction false} LineEndSpec(s: seq<Byte>)
    requires s != []
    ensures var n := LineEnd(s);
      && 0 < n <= |s| && 10 !in s[..n - 1] && (s[n - 1] == 10 || n == |s|)
  {
    if s[0] != NEWLINE && s[1..] != [] {
      LineEndSpec(s[1..]);
      var n := LineEnd(s);
      assert s[..n - 1] == [s[0]] + s[1..][..n - 2];
    }
  }

  lemma OneLineShift(s: seq<Byte>, n: nat, i: nat, j: nat)
    requires n <= |s|
    ensures OnOneLine(s[n..], i, j) <==> OnOneLine(s, n + i, n + j)
  {
    if i < j <= |s[n..]| {
      assert s[n..][i..j - 1] == s[n + i..n + j - 1];
    }
  }

  lemma NoNewline(s: seq<Byte>, i: nat, j: nat)
    requires OnOneLine(s, i, j)
    ensures forall k | i <= k < j - 1 :: s[k] != 10
  {
    forall k | i <= k < j - 1 ensures s[k] != 10 {
      assert s[i..j - 1][k - i] == s[k];
    }
  }

  /** The first line is too long, or a later one is. */
  lemma LongHereOrLater(s: seq<Byte>)
    requires s != []
    ensures HasLongLine(s) <==> LineEnd(s) > 67_108_864 || HasLongLine(s[LineEnd(s)..])
  {
    var n := LineEnd(s);
    LineEndSpec(s);
    if n > 67_108_864 {
      assert s[0..n - 1] == s[..n - 1];
      assert OnOneLine(s, 0, n);
    }
    if i: nat, j: nat :| OnOneLine(s[n..], i, j) && j - i > 67_108_864 {
      OneLineShift(s, n, i, j);
    }
    if i: nat, j: nat :| OnOneLine(s, i, j) && j - i > 67_108_864 {
      NoNewline(s, i, j);
      if i >= n {
        OneLineShift(s, n, i - n, j - n);
      }
    }
  }

  /** What is left of the source behind its good lines. */
  ghost function Remainder(s: seq<Byte>, ending: Ending): seq<Byte> {
    var good := BytesOf(Messages(s, ending));
    if |good| <= |s| then s[|good|..] else []
  }

  /** Where reading stops: at the end, before a last line that the failing stream does not
      complete, or before a line beyond the limit. */
  ghost predicate StopsWell(s: seq<Byte>, ending: Ending) {
    var ms, rest := Messages(s, ending), Remainder(s, ending);
    && BytesOf(ms) <= s
    && (if HasLongLine(s) then
          && ms != [] && ms[|ms| - 1] == Failure(TooLong)
          && |rest| > 67_108_864 && 10 !in rest[..67_108_864]
        else if ending == Failing then
          && ms != [] && ms[|ms| - 1] == Failure(Io)
          && |rest| <= 67_108_864 && 10 !in rest
        else
          rest == [] && forall m | m in ms :: m.Line?)
  }

  lemma FirstLine(s: seq<Byte>, ending: Ending)
    ensures NextLine(s, ending) ==
      if s != [] && LineEnd(s) > 67_108_864 then Failure(TooLong)
      else if ending == Failing && (s == [] || s[LineEnd(s) - 1] != 10) then Failure(Io)
      else Line(s[..LineEnd(s)])
  {
    if s != [] {
      LineEndSpec(s);
    }
  }

  lemma BytesOfLine(line: seq<Byte>, rest: seq<Message>)
    ensures BytesOf([Line(line)] + rest) == line + BytesOf(rest)
  {
    assert ([Line(line)] + rest)[1..] == rest;
  }

  lemma StopsHere(s: seq<Byte>, ending: Ending)
    requires NextLine(s, ending).Failure? || s == []
    ensures StopsWell(s, ending)
  {
    NextMessages(s, ending);
    FirstLine(s, ending);
    NothingLong();
    assert forall e :: BytesOf([Failure(e)]) == [] by {
      forall e ensures BytesOf([Failure(e)]) == [] {
        BytesOfOne(Failure(e));
      }
    }
    assert s[0..] == s && BytesOf([]) == [];
    if s != [] {
      LineEndSpec(s);
      LongHereOrLater(s);
      hide Messages, NextLine, HasLongLine, LineEnd, BytesOf;
      var n := LineEnd(s);
      if n > 67_108_864 {
        assert s[..n - 1][..67_108_864] == s[..67_108_864];
      } else {
        assert s[n..] == [];
        assert s == s[..n - 1] + [s[n - 1]];
      }
    }
  }

  lemma NothingLong()
    ensures !HasLongLine([])
  {
  }

  lemma StopsLater(s: seq<Byte>, ending: Ending, line: seq<Byte>)
    requires NextLine(s, ending) == Line(line) && s != [] && StopsWell(s[|line|..], ending)
    ensures StopsWell(s, ending)
  {
    GoesOn(s, ending, line);
    var t := s[|line|..];
    hide Messages, NextLine, HasLongLine, BytesOf;
    SameRest(s, line, t, BytesOf(Messages(t, ending)));
  }

  /** Behind a good line the messages, and whether a line is too long, are those of the rest. */
  lemma GoesOn(s: seq<Byte>, ending: Ending, line: seq<Byte>)
    requires NextLine(s, ending) == Line(line) && s != []
    ensures line != [] && line <= s && s == line + s[|line|..]
    ensures var t := s[|line|..];
      && Messages(s, ending) == [Line(line)] + Messages(t, ending)
      && BytesOf(Messages(s, ending)) == line + BytesOf(Messages(t, ending))
      && (HasLongLine(s) <==> HasLongLine(t))
  {
    NextMessages(s, ending);
    FirstLine(s, ending);
    LineEndSpec(s);
    LongHereOrLater(s);
    hide Messages, NextLine, HasLongLine, LineEnd, BytesOf;
    BytesOfLine(line, Messages(s[|line|..], ending));
  }

  lemma SameRest(s: seq<Byte>, line: seq<Byte>, t: seq<Byte>, good: seq<Byte>)
    requires s == line + t && good <= t
    ensures line + good <= s && s[|line + good|..] == t[|good|..]
  {
  }

  /** The lines delivered are the longest prefix of the source in whole, short enough lines; what
      follows decides the error. */
  lemma {:induction false} ReadingStops(s: seq<Byte>, ending: Ending)
    ensures StopsWell(s, ending)
    decreases |s|
  {
    var m := NextLine(s, ending);
    if m.Failure? || s == [] {
      StopsHere(s, ending);
    } else {
      FirstLine(s, ending);
      LineEndSpec(s);
      hide StopsWell, NextLine;
      ReadingStops(s[|m.bytes|..], ending);
      StopsLater(s, ending, m.bytes);
    }
  }

  /** Exactly the streams that end well and have no line beyond 64 MiB are readable. */
  lemma ReadableIff(s: seq<Byte>, ending: Ending)
    ensures Readable(s, ending) <==>
      ending == Eof && forall i: nat, j: nat | OnOneLine(s, i, j) :: j - i <= 67_108_864
  {
    ReadingStops(s, ending);
    var ms := Messages(s, ending);
    assert HasLongLine(s) || ending == Failing ==> ms[|ms| - 1] in ms;
    hide Messages, BytesOf;
  }

  // ------------------------------------------------------------ each line

  /** A delivered line: not empty, within the limit, one newline at most and that one last. */
  ghost predicate IsLine(b: seq<Byte>) {
    0 < |b| <= 67_108_864 && 10 !in b[..|b| - 1]
  }

  /** Every message but the last is a terminated line, and the last is a line or the error. */
  lemma {:induction false} MessagesAreLines(s: seq<Byte>, ending: Ending, k: nat)
    requires k < |Messages(s, ending)| && Messages(s, ending)[k].Line?
    ensures var b := Messages(s, ending)[k].bytes;
      IsLine(b) && (b[|b| - 1] == 10 || (ending == Eof && k == |Messages(s, ending)| - 1))
    decreases |s|
  {
    NextMessages(s, ending);
    var m := NextLine(s, ending);
    hide Messages, NextLine;
    if m.Line? && m.bytes != [] {
      FirstIsLine(s, ending, m.bytes);
      if k > 0 {
        MessagesAreLines(s[|m.bytes|..], ending, k - 1);
      } else if m.bytes[|m.bytes| - 1] != 10 {
        NoMessages();
      }
    }
  }

  lemma FirstIsLine(s: seq<Byte>, ending: Ending, line: seq<Byte>)
    requires NextLine(s, ending) == Line(line) && line != []
    ensures IsLine(line) && |line| <= |s|
    ensures line[|line| - 1] != 10 ==> ending == Eof && s[|line|..] == []
  {
    FirstLine(s, ending);
    if s != [] {
      LineEndSpec(s);
      var n := LineEnd(s);
      hide LineEnd, NextLine;
      assert s[..n][..n - 1] == s[..n - 1];
    }
  }

  lemma NoMessages()
    ensures Messages([], Eof) == []
  {
  }

  // ------------------------------------------------------------ polls and the channel

  /** A poll answers with the number of bytes it hands over, at most what was asked for, and
      with at least one when any is at hand and any is asked for. With fewer than asked for, the
      line is used up. */
  lemma PollTellsTruth(states: seq<Pipeline>, events: seq<Event>, source: seq<Byte>, ending: Ending, n: nat, cap: nat, k: nat)
    requires IsRun(states, events, source, ending) && n < |events|
    requires events[n] == ConsumerPoll(cap, Ready(Ok(k)))
    ensures var s, s' := states[n], states[n + 1];
      && k <= cap && s.delivered <= s'.delivered && |s'.delivered| == |s.delivered| + k
      && (k == 0 ==> cap == 0 || s.channel.closed)
      && (k < cap ==> s'.reader == ReaderState([], 0))
  {
    RunKeepsInv(states, events, source, ending, n);
    if k == 0 && cap > 0 {
      ZeroMeansEnd(states, events, source, ending, n, cap);
    }
    assert Step(states[n], events[n], states[n + 1], ending);
    hide Inv, Messages, NextLine, BytesOf;
  }

  /** The task is stuck exactly while it has a message for a channel that holds 65 already, or
      after it has closed the channel. */
  lemma StuckIff(states: seq<Pipeline>, events: seq<Event>, source: seq<Byte>, ending: Ending, n: nat)
    requires IsRun(states, events, source, ending) && n < |states|
    ensures var s := states[n];
      && |s.channel.queue| <= 65
      && ((exists t: TaskState, ch: ChannelState :: TaskStep(s.task, s.channel, ending, t, ch)) <==>
           !s.channel.closed && (s.task.outbox.Some? ==> |s.channel.queue| < 65))
  {
    RunKeepsInv(states, events, source, ending, n);
    var s := states[n];
    hide Messages, BytesOf, NextLine;
    if !s.channel.closed && (s.task.outbox.Some? ==> |s.channel.queue| < 65) {
      if s.task.outbox.Some? {
        var t, ch := s.task.(outbox := None), s.channel.(queue := s.channel.queue + [s.task.outbox.value]);
        assert TaskStep(s.task, s.channel, ending, t, ch);
      } else if s.task.failed {
        assert TaskStep(s.task, s.channel, ending, s.task, s.channel.(closed := true));
      } else {
        var t, ch := Reading(s.task, s.channel, ending);
        assert TaskStep(s.task, s.channel, ending, t, ch);
      }
    }
  }
}
