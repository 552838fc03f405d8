/** The markdown record of a compacted segment: turns are added while they fit a byte budget,
    the rest is reported as omitted. Also the thousands separators of its statistics. */
module SegmentTranscript {
  import opened Text
  import opened Utf8
  import opened Conversation
  import Decimal

  const SEGMENT_MAX_BYTES: nat := 512 * 1024
  const PER_TURN_OVERHEAD_BYTES: nat := 64

  // ---------------------------------------------------------------- the notice

  const NOTICE_START := "\n\n[... TRUNCATED at "
  const NOTICE_MIDDLE := " bytes, "
  const NOTICE_END := " turns omitted ...]\n"
  const LIMIT_FIELD := "{limit}"
  const OMITTED_FIELD := "{omitted}"

  function TruncationNotice(): string {
    Filled(LIMIT_FIELD, OMITTED_FIELD)
  }

  function Filled(limit: string, omitted: string): string {
    NOTICE_START + limit + NOTICE_MIDDLE + omitted + NOTICE_END
  }

  /** The two `replace` calls that fill in the notice. */
  function Notice(omitted: nat): string {
    Replace(
      Replace(TruncationNotice(), LIMIT_FIELD, Decimal.Render(SEGMENT_MAX_BYTES)),
      OMITTED_FIELD, Decimal.Render(omitted))
  }

  lemma ReplaceOnce(a: string, field: string, b: string, to: string)
    requires field != [] && Lacks(a, field[0]) && (forall q: nat :: !At(b, q, field))
    ensures Replace(a + field + b, field, to) == a + to + b
  {
    var s := a + field + b;
    assert s[|a|..|a| + |field|] == field;
    assert At(s, |a|, field);
    forall q: nat | q < |a| ensures !At(s, q, field) {
      assert s[q + 0] == a[q] != field[0];
    }
    FindIs(s, field, |a|);
    NowhereIn(b, field);
    ReplaceAbsent(b, field, to);
    assert s[|a| + |field|..] == b && s[..|a|] == a;
    hide Find, At, Lacks, Contains;
    ReplaceFirst(s, field, to, |a|);
  }

  lemma NowhereIn(s: string, t: string)
    requires forall q: nat :: !At(s, q, t)
    ensures !Contains(s, t)
  {
  }

  lemma DigitsLackBrace(n: nat)
    ensures Lacks(Decimal.Render(n), '{')
  {
    Decimal.RenderRoundTrip(n);
    forall i | 0 <= i < |Decimal.Render(n)| ensures Decimal.Render(n)[i] != '{' {
      assert Decimal.IsDigit(Decimal.Render(n)[i]);
    }
  }

  lemma FieldAfterLimit(q: nat)
    ensures !At(NOTICE_MIDDLE + OMITTED_FIELD + NOTICE_END, q, LIMIT_FIELD)
  {
    var rest := NOTICE_MIDDLE + OMITTED_FIELD + NOTICE_END;
    if q + 7 <= |rest| {
      if q == 8 {
        assert rest[9] == OMITTED_FIELD[1];
        assert rest[q + 1] != LIMIT_FIELD[1];
      } else {
        assert rest[q + 0] != LIMIT_FIELD[0] by {
          assert q < 8 ==> rest[q] == NOTICE_MIDDLE[q];
          assert 8 < q < 17 ==> rest[q] == OMITTED_FIELD[q - 8];
          assert 17 <= q ==> rest[q] == NOTICE_END[q - 17];
        }
      }
    }
  }

  /** The notice names the cap and the number of turns left out. */
  lemma NoticeIs(omitted: nat)
    ensures Notice(omitted) == Filled(Decimal.Render(SEGMENT_MAX_BYTES), Decimal.Render(omitted))
  {
    var limit, count := Decimal.Render(SEGMENT_MAX_BYTES), Decimal.Render(omitted);
    DigitsLackBrace(SEGMENT_MAX_BYTES);
    hide Decimal.Render, Replace, At;
    var rest := NOTICE_MIDDLE + OMITTED_FIELD + NOTICE_END;
    assert TruncationNotice() == NOTICE_START + LIMIT_FIELD + rest;
    forall q: nat ensures !At(rest, q, LIMIT_FIELD) {
      FieldAfterLimit(q);
    }
    assert Lacks(NOTICE_START, '{');
    ReplaceOnce(NOTICE_START, LIMIT_FIELD, rest, limit);
    var start := NOTICE_START + limit + NOTICE_MIDDLE;
    assert NOTICE_START + limit + rest == start + OMITTED_FIELD + NOTICE_END;
    forall q: nat ensures !At(NOTICE_END, q, OMITTED_FIELD) {
      NoBraceAtEnd(q);
    }
    assert Lacks(start, '{');
    ReplaceOnce(start, OMITTED_FIELD, NOTICE_END, count);
  }

  lemma NoBraceAtEnd(q: nat)
    ensures !At(NOTICE_END, q, OMITTED_FIELD)
  {
    if At(NOTICE_END, q, OMITTED_FIELD) {
      AtChar(NOTICE_END, q, OMITTED_FIELD, 0);
    }
  }

  // ---------------------------------------------------------------- thousands separators

  /** Groups of three digits, counted from the right. */
  function Grouped(digits: string): string {
    if |digits| <= 3 then digits
    else Grouped(digits[..|digits| - 3]) + "," + digits[|digits| - 3..]
  }

  /** What the loop has written after `i` of the digits. */
  function Emitted(digits: string, i: nat): string
    requires i <= |digits|
  {
    if i == 0 then ""
    else Emitted(digits, i - 1) + Separator(i - 1, |digits|) + [digits[i - 1]]
  }

  function Separator(i: nat, total: nat): string
    requires i <= total
  {
    if 0 < i && (total - i) % 3 == 0 then "," else ""
  }

  method WithThousands(n: nat) returns (out: string)
    ensures out == Grouped(Decimal.Render(n))
  {
    var digits := Decimal.Render(n);
    out := "";
    var i := 0;
    while i < |digits|
      invariant i <= |digits| && out == Emitted(digits, i)
    {
      if i > 0 && (|digits| - i) % 3 == 0 {
        out := out + ",";
      }
      out := out + [digits[i]];
      i := i + 1;
    }
    EmittedIsGrouped(digits, i);
    assert digits[..i] == digits;
  }

  lemma {:induction false} EmittedIsGrouped(digits: string, i: nat)
    requires i <= |digits| && (|digits| - i) % 3 == 0
    ensures Emitted(digits, i) == Grouped(digits[..i])
  {
    hide Emitted, Grouped;
    if i <= 3 {
      EmittedStart(digits, i);
      ShortGroup(digits[..i]);
    } else {
      EmittedIsGrouped(digits, i - 3);
      SplitGroup(digits, i);
      ThreeSteps(digits, i);
      GroupedMore(digits[..i - 3], digits[i - 3..i]);
    }
  }

  lemma ShortGroup(digits: string)
    requires |digits| <= 3
    ensures Grouped(digits) == digits
  {
  }

  lemma SplitGroup(digits: string, i: nat)
    requires 3 <= i <= |digits|
    ensures digits[..i] == digits[..i - 3] + digits[i - 3..i]
  {
  }

  lemma ThreeSteps(digits: string, i: nat)
    requires 3 < i <= |digits| && (|digits| - i) % 3 == 0
    ensures Emitted(digits, i) == Emitted(digits, i - 3) + "," + digits[i - 3..i]
  {
    hide Emitted;
    EmittedStep(digits, i - 2);
    EmittedStep(digits, i - 1);
    EmittedStep(digits, i);
    Regroup(Emitted(digits, i - 3), digits[i - 3..i]);
  }

  lemma EmittedStep(digits: string, i: nat)
    requires 0 < i <= |digits|
    ensures Emitted(digits, i) == Emitted(digits, i - 1) + Separator(i - 1, |digits|) + [digits[i - 1]]
  {
  }

  lemma Regroup(e: string, g: string)
    requires |g| == 3
    ensures ((e + "," + [g[0]]) + "" + [g[1]]) + "" + [g[2]] == e + "," + g
  {
  }

  lemma GroupedMore(init: string, g: string)
    requires init != [] && |g| == 3
    ensures Grouped(init + g) == Grouped(init) + "," + g
  {
    var digits := init + g;
    assert digits[..|digits| - 3] == init && digits[|digits| - 3..] == g;
  }

  lemma {:induction false} EmittedStart(digits: string, i: nat)
    requires i <= 3 && i <= |digits| && (|digits| - i) % 3 == 0
    ensures Emitted(digits, i) == digits[..i]
  {
    if i >= 1 {
      assert Emitted(digits, 1) == [digits[0]];
    }
    if i >= 2 {
      assert Emitted(digits, 2) == [digits[0], digits[1]];
    }
    if i >= 3 {
      assert Emitted(digits, 3) == [digits[0], digits[1], digits[2]];
    }
  }

  function WithoutCommas(s: string): string {
    if s == [] then "" else WithoutCommas(s[..|s| - 1]) + if s[|s| - 1] == ',' then "" else [s[|s| - 1]]
  }

  lemma {:induction false} WithoutCommasConcat(a: string, b: string)
    ensures WithoutCommas(a + b) == WithoutCommas(a) + WithoutCommas(b)
  {
    if b == [] {
      assert a + b == a;
    } else {
      assert (a + b)[..|a + b| - 1] == a + b[..|b| - 1];
      WithoutCommasConcat(a, b[..|b| - 1]);
    }
  }

  lemma {:induction false} PlainHasNoCommas(s: string)
    requires Lacks(s, ',')
    ensures WithoutCommas(s) == s
  {
    if s != [] {
      PlainHasNoCommas(s[..|s| - 1]);
    }
  }

  /** Grouping loses nothing. */
  lemma {:induction false} GroupedBack(digits: string)
    requires Lacks(digits, ',')
    ensures WithoutCommas(Grouped(digits)) == digits
  {
    if |digits| <= 3 {
      PlainHasNoCommas(digits);
    } else {
      var init, last := digits[..|digits| - 3], digits[|digits| - 3..];
      assert digits == init + last;
      assert Lacks(init, ',') && Lacks(last, ',');
      hide Grouped, WithoutCommas, Lacks;
      GroupedMore(init, last);
      GroupedBack(init);
      PlainHasNoCommas(last);
      WithoutCommasConcat(Grouped(init) + ",", last);
      WithoutCommasConcat(Grouped(init), ",");
      CommaAlone();
    }
  }

  lemma CommaAlone()
    ensures WithoutCommas(",") == ""
  {
  }

  /** The commas stand exactly at every fourth place from the right. */
  lemma {:induction false} CommaPlaces(digits: string, j: nat)
    requires Lacks(digits, ',') && j < |Grouped(digits)|
    ensures FromRight(Grouped(digits), j) == ',' <==> j % 4 == 3
  {
    if |digits| > 3 {
      var init, last := digits[..|digits| - 3], digits[|digits| - 3..];
      assert digits == init + last;
      GroupedMore(init, last);
      hide Grouped;
      assert |Grouped(digits)| == |Grouped(init)| + 4;
      if j >= 4 {
        CommaPlaces(init, j - 4);
      }
    }
  }

  lemma {:induction false} StartsWithDigit(digits: string)
    requires digits != []
    ensures Grouped(digits) != [] && Grouped(digits)[0] == digits[0]
  {
    if |digits| > 3 {
      StartsWithDigit(digits[..|digits| - 3]);
    }
  }

  function FromRight(s: string, j: nat): char
    requires j < |s|
  {
    s[|s| - 1 - j]
  }

  /** The separated number still says which number it is: without its commas it parses back,
      and a comma follows every third digit from the right, never the first place. */
  lemma ThousandsRoundTrip(n: nat)
    ensures var out := Grouped(Decimal.Render(n));
      && Decimal.AllDigits(WithoutCommas(out)) && Decimal.Value(WithoutCommas(out)) == n
      && out != [] && Decimal.IsDigit(out[0])
      && forall j: nat | j < |out| :: FromRight(out, j) == ',' <==> j % 4 == 3
  {
    Decimal.RenderRoundTrip(n);
    var digits := Decimal.Render(n);
    assert Decimal.IsDigit(digits[0]);
    assert Lacks(digits, ',') by {
      forall i | 0 <= i < |digits| ensures digits[i] != ',' {
        assert Decimal.IsDigit(digits[i]);
      }
    }
    hide Decimal.Render, Lacks, Grouped, WithoutCommas, FromRight, Decimal.Value, Decimal.AllDigits;
    GroupedBack(digits);
    StartsWithDigit(digits);
    forall j: nat | j < |Grouped(digits)| ensures FromRight(Grouped(digits), j) == ',' <==> j % 4 == 3 {
      CommaPlaces(digits, j);
    }
  }

  // ---------------------------------------------------------------- the document

  datatype Detail = NoTurns | Minimal | Balanced | Verbose

  function TurnsHeader(detail: Detail): string {
    match detail
    case NoTurns => ""
    case Minimal => "## Turn signatures\n\n"
    case Balanced => "## Turns (balanced detail)\n\n"
    case Verbose => "## Verbatim turns\n\n"
  }

  /** The bytes left for turns behind a preamble: the cap less the preamble, the notice's
      template and some slack, or nothing. */
  function Budget(preamble: string): nat {
    var reserved := Len(preamble) + Len(TruncationNotice()) + PER_TURN_OVERHEAD_BYTES;
    if reserved <= SEGMENT_MAX_BYTES then SEGMENT_MAX_BYTES - reserved else 0
  }

  function Bytes(blocks: seq<string>): nat {
    if blocks == [] then 0 else Bytes(blocks[..|blocks| - 1]) + Len(blocks[|blocks| - 1])
  }

  /** `join("\n")`. */
  function Join(blocks: seq<string>): string {
    if blocks == [] then ""
    else if |blocks| == 1 then blocks[0]
    else Join(blocks[..|blocks| - 1]) + "\n" + blocks[|blocks| - 1]
  }

  function Blocks<T>(render: (T, nat) -> string, items: seq<T>): (r: seq<string>)
    ensures |r| == |items| && forall i | 0 <= i < |items| :: r[i] == render(items[i], i)
  {
    seq(|items|, i requires 0 <= i < |items| => render(items[i], i))
  }

  /** `k` is the longest prefix of the blocks that fits the budget. */
  ghost predicate LongestFit(blocks: seq<string>, budget: nat, k: nat) {
    k <= |blocks| && forall j: nat | j <= |blocks| :: Bytes(blocks[..j]) <= budget <==> j <= k
  }

  /** The notice is added only when turns are left out. */
  function Ending(omitted: nat): string {
    if omitted > 0 then Notice(omitted) else ""
  }

  function Document(preamble: string, blocks: seq<string>, k: nat): string
    requires k <= |blocks|
  {
    preamble + (Join(blocks[..k]) + Ending(|blocks| - k))
  }

  /** `render_segment_md` behind its head of header, metadata, statistics and summary: the
      longest prefix of the turns that fits, and how many were left out. */
  method RenderSegment<T>(head: string, render: (T, nat) -> string, items: seq<T>, detail: Detail)
    returns (doc: string, ghost k: nat)
    ensures detail.NoTurns? ==> doc == head
    ensures !detail.NoTurns? ==> LongestFit(Blocks(render, items), Budget(head + TurnsHeader(detail)), k)
    ensures !detail.NoTurns? ==> doc == Document(head + TurnsHeader(detail), Blocks(render, items), k)
  {
    hide Budget, Notice, TurnsHeader, Join, LongestFit, Blocks;
    if detail.NoTurns? {
      return head, 0;
    }
    var preamble := head + TurnsHeader(detail);
    var budget := Budget(preamble);
    var blocks, truncatedAt := FittingBlocks(render, items, budget);
    k := truncatedAt;
    var body := Join(blocks);
    assert body == body + "";
    if truncatedAt < |items| {
      body := body + Notice(|items| - truncatedAt);
    }
    doc := preamble + body;
  }

  /** The loop of `render_segment_md`: it stops at the first turn that does not fit. */
  method FittingBlocks<T>(render: (T, nat) -> string, items: seq<T>, budget: nat)
    returns (blocks: seq<string>, truncatedAt: nat)
    ensures LongestFit(Blocks(render, items), budget, truncatedAt)
    ensures blocks == Blocks(render, items)[..truncatedAt]
  {
    ghost var all := Blocks(render, items);
    hide Len, Bytes, LongestFit, Blocks;
    NoBytes();
    blocks := [];
    truncatedAt := |items|;
    var used := 0;
    var i := 0;
    while i < |items|
      invariant i <= |items| && blocks == all[..i] && truncatedAt == |items|
      invariant used == Bytes(all[..i]) && used <= budget
    {
      var block := render(items[i], i);
      assert block == all[i];
      OneMoreBlock(all, i);
      if used + Len(block) > budget {
        truncatedAt := i;
        break;
      }
      used := used + Len(block);
      blocks := blocks + [block];
      i := i + 1;
    }
    GreedyIsLongest(all, budget, i);
  }

  lemma OneMoreBlock(blocks: seq<string>, i: nat)
    requires i < |blocks|
    ensures blocks[..i + 1] == blocks[..i] + [blocks[i]]
    ensures Bytes(blocks[..i + 1]) == Bytes(blocks[..i]) + Len(blocks[i])
  {
    assert blocks[..i + 1] == blocks[..i] + [blocks[i]];
    BytesMore(blocks[..i], blocks[i]);
  }

  lemma BytesMore(blocks: seq<string>, block: string)
    ensures Bytes(blocks + [block]) == Bytes(blocks) + Len(block)
  {
    assert (blocks + [block])[..|blocks|] == blocks;
  }

  lemma {:induction false} BytesMonotone(blocks: seq<string>, i: nat, j: nat)
    requires i <= j <= |blocks|
    ensures Bytes(blocks[..i]) <= Bytes(blocks[..j])
  {
    hide Len, Bytes;
    if i < j {
      BytesMonotone(blocks, i, j - 1);
      OneMoreBlock(blocks, j - 1);
    }
  }

  /** Stopping at the first block that does not fit loses no longer prefix. */
  lemma GreedyIsLongest(blocks: seq<string>, budget: nat, k: nat)
    requires k <= |blocks| && Bytes(blocks[..k]) <= budget
    requires k < |blocks| ==> budget < Bytes(blocks[..k + 1])
    ensures LongestFit(blocks, budget, k)
  {
    forall j: nat | j <= |blocks| ensures Bytes(blocks[..j]) <= budget <==> j <= k {
      if j <= k {
        BytesMonotone(blocks, j, k);
      } else {
        BytesMonotone(blocks, k + 1, j);
      }
    }
  }

  // ---------------------------------------------------------------- the size

  /** A separator per turn after the first is not in the budget. */
  lemma {:induction false} JoinBytes(blocks: seq<string>)
    ensures Len(Join(blocks)) == Bytes(blocks) + Separators(|blocks|)
  {
    if blocks == [] {
    } else if |blocks| == 1 {
      assert Bytes(blocks[..0]) == 0;
    } else {
      var init, last := blocks[..|blocks| - 1], blocks[|blocks| - 1];
      JoinBytes(init);
      AsciiLen("\n");
      hide Len;
      LenConcat(Join(init) + "\n", last);
      LenConcat(Join(init), "\n");
    }
  }

  function Separators(k: nat): nat {
    if k == 0 then 0 else k - 1
  }

  lemma StartBytes()
    ensures Len(NOTICE_START) == 20
  {
    hide Len;
    AsciiLen(NOTICE_START);
  }

  lemma MiddleBytes()
    ensures Len(NOTICE_MIDDLE) == 8
  {
    hide Len;
    AsciiLen(NOTICE_MIDDLE);
  }

  lemma EndBytes()
    ensures Len(NOTICE_END) == 20
  {
    hide Len;
    AsciiLen(NOTICE_END);
  }

  lemma FieldBytes()
    ensures Len(LIMIT_FIELD) == 7 && Len(OMITTED_FIELD) == 9
  {
    hide Len;
    AsciiLen(LIMIT_FIELD);
    AsciiLen(OMITTED_FIELD);
  }

  lemma FilledBytes(limit: string, omitted: string)
    ensures Len(Filled(limit, omitted)) == 48 + Len(limit) + Len(omitted)
  {
    hide Len;
    StartBytes();
    MiddleBytes();
    EndBytes();
    FiveParts(NOTICE_START, limit, NOTICE_MIDDLE, omitted, NOTICE_END);
  }

  lemma FiveParts(a: string, b: string, c: string, d: string, e: string)
    ensures Len(a + b + c + d + e) == Len(a) + Len(b) + Len(c) + Len(d) + Len(e)
  {
    hide Len;
    LenConcat(a, b);
    LenConcat(a + b, c);
    LenConcat(a + b + c, d);
    LenConcat(a + b + c + d, e);
  }

  lemma TemplateBytes()
    ensures Len(TruncationNotice()) == 64
  {
    hide Len, Filled;
    FilledBytes(LIMIT_FIELD, OMITTED_FIELD);
    FieldBytes();
  }

  lemma RenderedBytes(n: nat)
    ensures Len(Decimal.Render(n)) == |Decimal.Render(n)|
  {
    Decimal.RenderRoundTrip(n);
    forall i | 0 <= i < |Decimal.Render(n)| ensures Decimal.Render(n)[i] as int < 0x80 {
      assert Decimal.IsDigit(Decimal.Render(n)[i]);
    }
    AsciiLen(Decimal.Render(n));
  }

  lemma LimitDigits()
    ensures |Decimal.Render(SEGMENT_MAX_BYTES)| == 6
  {
    assert Decimal.Pow10(6) == 10 * Decimal.Pow10(5);
    PowersOfTen();
    Decimal.DigitCount(SEGMENT_MAX_BYTES, 6);
    Decimal.DigitCount(SEGMENT_MAX_BYTES, 5);
  }

  lemma PowersOfTen()
    ensures Decimal.Pow10(5) == 100_000 && Decimal.Pow10(6) == 1_000_000
    ensures Decimal.Pow10(20) > 0xFFFF_FFFF_FFFF_FFFF
  {
    assert Decimal.Pow10(3) == 1000;
    assert Decimal.Pow10(5) == 100_000;
    assert Decimal.Pow10(8) == 100_000_000;
    assert Decimal.Pow10(12) == 10_000 * Decimal.Pow10(8);
    assert Decimal.Pow10(16) == 10_000 * Decimal.Pow10(12);
    assert Decimal.Pow10(20) == 10_000 * Decimal.Pow10(16);
  }

  /** The filled-in notice takes 54 bytes and the digits of the count. */
  lemma NoticeBytes(omitted: nat)
    ensures Len(Notice(omitted)) == 54 + |Decimal.Render(omitted)|
  {
    hide Len, Decimal.Render, Filled, Notice;
    NoticeIs(omitted);
    FilledBytes(Decimal.Render(SEGMENT_MAX_BYTES), Decimal.Render(omitted));
    RenderedBytes(SEGMENT_MAX_BYTES);
    RenderedBytes(omitted);
    LimitDigits();
  }

  function NoticeSize(omitted: nat): nat {
    if omitted == 0 then 0 else 54 + |Decimal.Render(omitted)|
  }

  /** The document's exact size. */
  lemma DocumentBytes(preamble: string, blocks: seq<string>, k: nat)
    requires k <= |blocks|
    ensures Len(Document(preamble, blocks, k)) ==
      Len(preamble) + Bytes(blocks[..k]) + Separators(k) + NoticeSize(|blocks| - k)
  {
    hide Len, Notice, Join, Bytes, Decimal.Render;
    var body, ending := Join(blocks[..k]), Ending(|blocks| - k);
    LenConcat(preamble, body + ending);
    LenConcat(body, ending);
    JoinBytes(blocks[..k]);
    EndingBytes(|blocks| - k);
  }

  lemma EndingBytes(omitted: nat)
    ensures Len(Ending(omitted)) == NoticeSize(omitted)
  {
    if omitted > 0 {
      hide Len, Notice, Decimal.Render;
      NoticeBytes(omitted);
    }
  }

  /** The reserve covers the notice, whatever the count. */
  lemma NoticeFits(omitted: nat)
    requires omitted < 0x1_0000_0000_0000_0000
    ensures NoticeSize(omitted) <= 74
  {
    PowersOfTen();
    Decimal.DigitCount(omitted, 20);
  }

  ghost predicate PreambleFits(preamble: string) {
    Len(preamble) + Len(TruncationNotice()) + PER_TURN_OVERHEAD_BYTES <= SEGMENT_MAX_BYTES
  }

  /** The document exceeds the cap by less than a byte per turn kept, and keeps to it while at
      most 55 turns are kept. Without a cut the slack allows 129. */
  lemma SizeBound(preamble: string, blocks: seq<string>, k: nat)
    requires |blocks| < 0x1_0000_0000_0000_0000 && PreambleFits(preamble)
    requires LongestFit(blocks, Budget(preamble), k)
    ensures var size := Len(Document(preamble, blocks, k));
      && size <= SEGMENT_MAX_BYTES + k
      && (k <= 55 ==> size <= SEGMENT_MAX_BYTES)
      && (k == |blocks| <= 129 ==> size <= SEGMENT_MAX_BYTES)
  {
    TemplateBytes();
    DocumentBytes(preamble, blocks, k);
    NoticeFits(|blocks| - k);
    assert Bytes(blocks[..k]) <= Budget(preamble);
    hide Len, Decimal.Render, Document, Bytes, NoticeSize;
    assert k == |blocks| ==> NoticeSize(|blocks| - k) == 0 by { NoNotice(); }
  }

  lemma NoNotice()
    ensures NoticeSize(0) == 0
  {
  }

  /** Exactly which documents keep to the cap, cut or not. If the preamble fits, those whose
      line breaks and notice fit in the 128 bytes of reserve and what the turns leave of the
      budget; no line break is budgeted. If it does not, no turn has room, and those whose
      preamble leaves room for the notice anyway. */
  lemma {:induction false} WithinCapIff(preamble: string, blocks: seq<string>, k: nat)
    requires LongestFit(blocks, Budget(preamble), k)
    ensures PreambleFits(preamble) ==>
      (Len(Document(preamble, blocks, k)) <= SEGMENT_MAX_BYTES <==>
       Separators(k) + NoticeSize(|blocks| - k) <= 128 + (Budget(preamble) - Bytes(blocks[..k])))
    ensures !PreambleFits(preamble) ==>
      (Len(Document(preamble, blocks, k)) <= SEGMENT_MAX_BYTES <==>
       Len(preamble) + Separators(k) + NoticeSize(|blocks| - k) <= SEGMENT_MAX_BYTES)
  {
    TemplateBytes();
    DocumentBytes(preamble, blocks, k);
    assert Bytes(blocks[..k]) <= Budget(preamble);
    hide Len, Document, Bytes, NoticeSize, LongestFit;
  }

  lemma NoBytes()
    ensures Bytes([]) == 0
  {
  }

  // ------------------------------------------------------------ a segment over the cap

  /** `role_label`. */
  function RoleLabel(x: Item): string {
    match x
    case System(_) => "System"
    case User(_, _) => "Human"
    case ToolResult(_, _, _) => "Function"
    case _ => "Assistant"
  }

  function JoinCalls(signatures: seq<string>): string {
    if signatures == [] then ""
    else if |signatures| == 1 then signatures[0]
    else JoinCalls(signatures[..|signatures| - 1]) + "  " + signatures[|signatures| - 1]
  }

  /** `render_turn_signature`, for any rendering of one call. */
  function TurnSignature(signature: ToolCall -> string, x: Item, index: nat): string {
    var title := "### Turn " + Decimal.Render(index) + (" (" + RoleLabel(x) + ")");
    match x
    case Assistant(_, calls) =>
      var shown := seq(|calls|, i requires 0 <= i < |calls| => signature(calls[i]));
      title + "  " + (if calls == [] then "(text only)" else JoinCalls(shown)) + "\n"
    case ToolResult(_, _, _) => title + "  [tool_response]\n"
    case _ => title + "\n"
  }

  lemma UserTurnBytes(signature: ToolCall -> string, x: Item, index: nat)
    requires x.User?
    ensures Len(TurnSignature(signature, x, index)) == 18 + |Decimal.Render(index)|
  {
    TitleBytes();
    RenderedBytes(index);
    hide Len, Decimal.Render;
    FourParts("### Turn ", Decimal.Render(index), " (" + "Human" + ")", "\n");
  }

  lemma TitleBytes()
    ensures Len("### Turn ") == 9 && Len(" (" + "Human" + ")") == 8 && Len("\n") == 1
  {
    hide Len;
    AsciiLen("### Turn ");
    AsciiLen(" (" + "Human" + ")");
    AsciiLen("\n");
  }

  lemma FourParts(a: string, b: string, c: string, d: string)
    ensures Len(a + b + c + d) == Len(a) + Len(b) + Len(c) + Len(d)
  {
    hide Len;
    LenConcat(a, b);
    LenConcat(a + b, c);
    LenConcat(a + b + c, d);
  }

  /** Digits of all the indices below `n`. */
  function IndexDigits(n: nat): nat {
    if n == 0 then 0 else IndexDigits(n - 1) + |Decimal.Render(n - 1)|
  }

  lemma IndexWidth(k: nat, n: nat)
    requires (k == 0 || Decimal.Pow10(k) <= n) && n < Decimal.Pow10(k + 1)
    ensures |Decimal.Render(n)| == k + 1
  {
    Decimal.DigitCount(n, k + 1);
    Decimal.RenderRoundTrip(n);
    hide Decimal.Render, Decimal.Pow10, Decimal.Value, Decimal.AllDigits;
    if k > 0 {
      Decimal.DigitCount(n, k);
    }
  }

  lemma OneMore(w: nat, m: nat)
    ensures w * (m + 1) == w * m + w
  {
  }

  lemma {:induction false} IndexDigitsBetween(k: nat, m: nat, n: nat)
    requires (k == 0 || Decimal.Pow10(k) <= m) && m <= n <= Decimal.Pow10(k + 1)
    ensures IndexDigits(n) == IndexDigits(m) + (k + 1) * (n - m)
  {
    hide Decimal.Render, Decimal.Pow10;
    if m < n {
      IndexDigitsBetween(k, m, n - 1);
      IndexWidth(k, n - 1);
      OneMore(k + 1, n - 1 - m);
    }
  }

  lemma ManyIndexDigits()
    ensures IndexDigits(22_500) == 101_390
  {
    SmallPowers();
    hide IndexDigits, Decimal.Pow10;
    NoIndexDigits();
    IndexDigitsBetween(0, 0, 10);
    IndexDigitsBetween(1, 10, 100);
    IndexDigitsBetween(2, 100, 1000);
    IndexDigitsBetween(3, 1000, 10_000);
    IndexDigitsBetween(4, 10_000, 22_500);
  }

  lemma SmallPowers()
    ensures Decimal.Pow10(1) == 10 && Decimal.Pow10(2) == 100 && Decimal.Pow10(3) == 1000
    ensures Decimal.Pow10(4) == 10_000 && Decimal.Pow10(5) == 100_000
  {
    assert Decimal.Pow10(2) == 10 * Decimal.Pow10(1);
    assert Decimal.Pow10(4) == 10 * Decimal.Pow10(3);
  }

  lemma NoIndexDigits()
    ensures IndexDigits(0) == 0
  {
  }

  lemma {:induction false} UserTurnsBytes(signature: ToolCall -> string, items: seq<Item>, n: nat)
    requires n <= |items| && forall i | 0 <= i < |items| :: items[i].User?
    ensures Bytes(Blocks((x, i) => TurnSignature(signature, x, i), items)[..n]) == 18 * n + IndexDigits(n)
  {
    var blocks := Blocks((x, i) => TurnSignature(signature, x, i), items);
    hide Len, Bytes, TurnSignature, Blocks;
    if n == 0 {
      NoBytes();
    } else {
      UserTurnsBytes(signature, items, n - 1);
      OneMoreBlock(blocks, n - 1);
      UserTurnBytes(signature, items[n - 1], n - 1);
    }
  }

  /** The cap is exceeded by every segment of 22500 or more user turns shown by signature, cut or
      not, although its preamble fits: that many turns fit the budget and the line breaks between
      them do not. */
  lemma CapExceeded(preamble: string, signature: ToolCall -> string, items: seq<Item>, k: nat)
    requires Len(preamble) <= 16_000 && |items| >= 22_500 && forall i | 0 <= i < |items| :: items[i].User?
    requires LongestFit(Blocks((x, i) => TurnSignature(signature, x, i), items), Budget(preamble), k)
    ensures PreambleFits(preamble) && k >= 22_500
    ensures Len(Document(preamble, Blocks((x, i) => TurnSignature(signature, x, i), items), k)) > SEGMENT_MAX_BYTES
  {
    var blocks := Blocks((x, i) => TurnSignature(signature, x, i), items);
    UserTurnsBytes(signature, items, 22_500);
    ManyIndexDigits();
    TemplateBytes();
    hide Len, Document, Bytes, Blocks, NoticeSize, IndexDigits;
    assert Bytes(blocks[..22_500]) <= Budget(preamble) <==> 22_500 <= k;
    BytesMonotone(blocks, 22_500, k);
    DocumentBytes(preamble, blocks, k);
  }

  /** A preamble that leaves no budget omits every turn. */
  lemma NothingFits(preamble: string, blocks: seq<string>, k: nat)
    requires Budget(preamble) == 0 && LongestFit(blocks, 0, k)
    requires forall i | 0 <= i < |blocks| :: blocks[i] != ""
    ensures k == 0
  {
    if k > 0 {
      assert Bytes(blocks[..1]) <= 0;
      assert blocks[..1][..0] == [] && blocks[..1][0] == blocks[0];
      FirstByte(blocks[0]);
    }
  }
}
