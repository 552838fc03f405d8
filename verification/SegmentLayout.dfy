/** Where every turn stands in a segment's document, and which turns it keeps. */
module SegmentLayout {
  import opened Text
  import opened Utf8
  import opened Conversation
  import opened SegmentTranscript
  import Decimal

  // ------------------------------------------------------------ positions

  /** Characters and line breaks in front of block `i`. */
  function Offset(blocks: seq<string>, i: nat): nat
    requires i <= |blocks|
  {
    if i == 0 then 0 else Offset(blocks, i - 1) + |blocks[i - 1]| + 1
  }

  ghost predicate StandsAt(text: string, p: nat, part: string) {
    p + |part| <= |text| && text[p..p + |part|] == part
  }

  lemma StandsInFront(a: string, b: string, p: nat, part: string)
    requires StandsAt(a, p, part)
    ensures StandsAt(a + b, p, part)
  {
    assert (a + b)[p..p + |part|] == a[p..p + |part|];
  }

  lemma StandsBehind(a: string, b: string, p: nat, part: string)
    requires StandsAt(b, p, part)
    ensures StandsAt(a + b, |a| + p, part)
  {
    assert (a + b)[|a| + p..|a| + p + |part|] == b[p..p + |part|];
  }

  lemma {:induction false} OffsetOfPrefix(blocks: seq<string>, n: nat, i: nat)
    requires i <= n <= |blocks|
    ensures Offset(blocks[..n], i) == Offset(blocks, i)
  {
    if i > 0 {
      OffsetOfPrefix(blocks, n, i - 1);
    }
  }

  lemma JoinLast(blocks: seq<string>)
    requires |blocks| >= 2
    ensures Join(blocks) == Join(blocks[..|blocks| - 1]) + ("\n" + blocks[|blocks| - 1])
  {
    var a, c := Join(blocks[..|blocks| - 1]), blocks[|blocks| - 1];
    assert a + "\n" + c == a + ("\n" + c);
  }

  /** Joining puts block `i` behind the blocks and line breaks before it. */
  lemma {:induction false} JoinAt(blocks: seq<string>, i: nat)
    requires i < |blocks|
    ensures |Join(blocks)| + 1 == Offset(blocks, |blocks|)
    ensures StandsAt(Join(blocks), Offset(blocks, i), blocks[i])
    ensures i > 0 ==> Offset(blocks, i) > 0 && StandsAt(Join(blocks), Offset(blocks, i) - 1, "\n")
  {
    var n := |blocks|;
    if n == 1 {
      OneBlock(blocks);
    } else {
      var init, last := blocks[..n - 1], blocks[n - 1];
      JoinLast(blocks);
      OffsetOfPrefix(blocks, n - 1, n - 1);
      hide Join, StandsAt;
      JoinAt(init, if i < n - 1 then i else 0);
      OffsetStep(blocks, n);
      if i < n - 1 {
        OffsetOfPrefix(blocks, n - 1, i);
        StandsInFront(Join(init), "\n" + last, Offset(blocks, i), blocks[i]);
        if i > 0 {
          StandsInFront(Join(init), "\n" + last, Offset(blocks, i) - 1, "\n");
        }
      } else {
        NewLine(last);
        StandsBehind(Join(init), "\n" + last, 1, last);
        StandsBehind(Join(init), "\n" + last, 0, "\n");
      }
    }
  }

  lemma OneBlock(blocks: seq<string>)
    requires |blocks| == 1
    ensures Join(blocks) == blocks[0] && Offset(blocks, 0) == 0 && Offset(blocks, 1) == |blocks[0]| + 1
    ensures StandsAt(blocks[0], 0, blocks[0])
  {
  }

  lemma OffsetStep(blocks: seq<string>, i: nat)
    requires 0 < i <= |blocks|
    ensures Offset(blocks, i) == Offset(blocks, i - 1) + |blocks[i - 1]| + 1
  {
  }

  lemma NewLine(last: string)
    ensures StandsAt("\n" + last, 1, last) && StandsAt("\n" + last, 0, "\n")
  {
  }

  /** The kept turns, joined. */
  ghost function KeptTurnsText(blocks: seq<string>, k: nat): string
    requires k <= |blocks|
  {
    Join(blocks[..k])
  }

  lemma KeptAt(blocks: seq<string>, k: nat, i: nat)
    requires i < k <= |blocks|
    ensures var body := KeptTurnsText(blocks, k);
      && StandsAt(body, Offset(blocks, i), blocks[i])
      && (i > 0 ==> Offset(blocks, i) > 0 && StandsAt(body, Offset(blocks, i) - 1, "\n"))
      && |body| + 1 == Offset(blocks, k)
  {
    JoinAt(blocks[..k], i);
    OffsetOfPrefix(blocks, k, i);
    OffsetOfPrefix(blocks, k, k);
    hide Join, StandsAt;
  }

  lemma DocumentIs(preamble: string, blocks: seq<string>, k: nat)
    requires k <= |blocks|
    ensures Document(preamble, blocks, k) == preamble + (KeptTurnsText(blocks, k) + Ending(|blocks| - k))
  {
    hide Join, Ending;
  }

  /** In the document every kept turn stands at its place behind the preamble. */
  lemma TurnsLayout(preamble: string, blocks: seq<string>, k: nat, i: nat)
    requires i < k <= |blocks|
    ensures StandsAt(Document(preamble, blocks, k), |preamble| + Offset(blocks, i), blocks[i])
  {
    hide *;
    KeptAt(blocks, k, i);
    DocumentIs(preamble, blocks, k);
    InBody(preamble, KeptTurnsText(blocks, k), Ending(|blocks| - k), Offset(blocks, i), blocks[i]);
  }

  /** A line break stands in front of every turn but the first. */
  lemma TurnsApart(preamble: string, blocks: seq<string>, k: nat, i: nat)
    requires 0 < i < k <= |blocks|
    ensures Offset(blocks, i) > 0
    ensures StandsAt(Document(preamble, blocks, k), |preamble| + (Offset(blocks, i) - 1), "\n")
  {
    hide *;
    KeptAt(blocks, k, i);
    DocumentIs(preamble, blocks, k);
    InBody(preamble, KeptTurnsText(blocks, k), Ending(|blocks| - k), Offset(blocks, i) - 1, "\n");
  }

  /** The preamble comes first; behind the last kept turn there is the notice if turns were left
      out, and nothing else. */
  lemma DocumentEnds(preamble: string, blocks: seq<string>, k: nat)
    requires 0 < k <= |blocks|
    ensures var doc := Document(preamble, blocks, k);
      var ending := if k < |blocks| then Notice(|blocks| - k) else "";
      && Offset(blocks, k) > 0
      && StandsAt(doc, 0, preamble)
      && StandsAt(doc, |preamble| + (Offset(blocks, k) - 1), ending)
      && |doc| == |preamble| + (Offset(blocks, k) - 1) + |ending|
  {
    hide *;
    KeptAt(blocks, k, 0);
    EndingIs(|blocks| - k);
    DocumentIs(preamble, blocks, k);
    AroundBody(preamble, KeptTurnsText(blocks, k), Ending(|blocks| - k));
  }

  lemma InBody(preamble: string, body: string, ending: string, p: nat, part: string)
    requires StandsAt(body, p, part)
    ensures StandsAt(preamble + (body + ending), |preamble| + p, part)
  {
    StandsInFront(body, ending, p, part);
    hide StandsAt;
    StandsBehind(preamble, body + ending, p, part);
  }

  lemma AroundBody(preamble: string, body: string, ending: string)
    ensures StandsAt(preamble + (body + ending), 0, preamble)
    ensures StandsAt(preamble + (body + ending), |preamble| + |body|, ending)
    ensures |preamble + (body + ending)| == |preamble| + |body| + |ending|
  {
    Whole(preamble);
    Whole(ending);
    hide StandsAt;
    StandsInFront(preamble, body + ending, 0, preamble);
    StandsBehind(body, ending, 0, ending);
    StandsBehind(preamble, body + ending, |body|, ending);
  }

  lemma Whole(s: string)
    ensures StandsAt(s, 0, s)
  {
  }

  lemma EndingIs(omitted: nat)
    ensures Ending(omitted) == if omitted > 0 then Notice(omitted) else ""
  {
  }

  /** When every turn is left out, only the notice follows the preamble. */
  lemma EmptyLayout(preamble: string, blocks: seq<string>)
    ensures Document(preamble, blocks, 0) == preamble + (if blocks == [] then "" else Notice(|blocks|))
  {
    hide Notice;
    assert blocks[..0] == [] && Join([]) == "";
    assert "" + Ending(|blocks|) == Ending(|blocks|);
  }

  // ------------------------------------------------------------ which turns are kept

  /** A prefix of the turns fits iff it stays, with the preamble and 128 bytes of reserve, within
      512 KiB, or takes no bytes at all. */
  lemma BudgetIs(preamble: string, blocks: seq<string>, j: nat)
    requires j <= |blocks|
    ensures Bytes(blocks[..j]) <= Budget(preamble) <==>
      Len(preamble) + 128 + Bytes(blocks[..j]) <= 524_288 || Bytes(blocks[..j]) == 0
  {
    TemplateBytes();
    hide Len, Bytes;
  }

  /** The turns kept are as many as fit. */
  lemma KeptTurns(preamble: string, blocks: seq<string>, k: nat)
    ensures LongestFit(blocks, Budget(preamble), k) <==>
      && k <= |blocks|
      && forall j: nat | j <= |blocks| ::
           (Len(preamble) + 128 + Bytes(blocks[..j]) <= 524_288 || Bytes(blocks[..j]) == 0) <==> j <= k
  {
    forall j: nat | j <= |blocks|
      ensures Bytes(blocks[..j]) <= Budget(preamble) <==>
        Len(preamble) + 128 + Bytes(blocks[..j]) <= 524_288 || Bytes(blocks[..j]) == 0
    {
      BudgetIs(preamble, blocks, j);
    }
    hide Len, Bytes, Budget;
  }

  // ------------------------------------------------------------ signatures

  /** The signatures of several calls, in order and two spaces apart. */
  lemma {:induction false} CallsConcat(a: seq<string>, b: seq<string>)
    requires a != [] && b != []
    ensures JoinCalls(a + b) == JoinCalls(a) + "  " + JoinCalls(b)
  {
    var n := |b| - 1;
    assert (a + b)[..|a + b| - 1] == a + b[..n];
    if n == 0 {
      assert a + b[..0] == a;
    } else {
      CallsConcat(a, b[..n]);
      var x, y := JoinCalls(a), JoinCalls(b[..n]);
      assert x + "  " + y + "  " + b[n] == x + "  " + (y + "  " + b[n]);
    }
  }

  /** A turn's signature names its number and its role. */
  lemma SignatureTitle(signature: ToolCall -> string, x: Item, index: nat)
    ensures StandsAt(TurnSignature(signature, x, index), 0, "### Turn " + Decimal.Render(index) + (" (" + RoleLabel(x) + ")"))
    ensures RoleLabel(x) == "Human" <==> x.User?
    ensures RoleLabel(x) == "System" <==> x.System?
    ensures RoleLabel(x) == "Function" <==> x.ToolResult?
    ensures RoleLabel(x) == "Assistant" <==> x.Assistant? || x.BackendToolCall? || x.Reasoning?
  {
    DistinctRoles();
    hide JoinCalls, Decimal.Render, StandsAt;
    var title := "### Turn " + Decimal.Render(index) + (" (" + RoleLabel(x) + ")");
    Whole(title);
    match x
    case Assistant(_, calls) =>
      var shown := seq(|calls|, i requires 0 <= i < |calls| => signature(calls[i]));
      var text := if calls == [] then "(text only)" else JoinCalls(shown);
      StandsInFront(title, "  ", 0, title);
      StandsInFront(title + "  ", text, 0, title);
      StandsInFront(title + "  " + text, "\n", 0, title);
    case ToolResult(_, _, _) =>
      StandsInFront(title, "  [tool_response]\n", 0, title);
    case _ =>
      StandsInFront(title, "\n", 0, title);
  }

  lemma DistinctRoles()
    ensures "Human" != "System" && "Human" != "Function" && "Human" != "Assistant"
    ensures "System" != "Function" && "System" != "Assistant" && "Function" != "Assistant"
  {
    assert "Human"[0] == 'H' && "System"[0] == 'S' && "Function"[0] == 'F' && "Assistant"[0] == 'A';
  }

  /** The header in front of the turns names the level of detail; without turns there is none. */
  lemma HeaderNames()
    ensures TurnsHeader(NoTurns) == ""
    ensures StandsAt(TurnsHeader(Minimal), 0, "## Turn signatures")
    ensures StandsAt(TurnsHeader(Balanced), 0, "## Turns (balanced")
    ensures StandsAt(TurnsHeader(Verbose), 0, "## Verbatim turns")
  {
    assert TurnsHeader(Minimal)[..18] == "## Turn signatures";
    assert TurnsHeader(Balanced)[..18] == "## Turns (balanced";
    assert TurnsHeader(Verbose)[..17] == "## Verbatim turns";
  }
}
