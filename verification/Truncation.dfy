/** Truncation of one text or one item to a byte budget. */
module Truncation {
  import opened Wrappers
  import opened Utf8
  import opened Decimal
  import opened Conversation

  const MARKER_RESERVE := 64
  const MARKER_BYTES := 56
  const MARKER_HEAD := "\n[... truncated "
  const MARKER_TAIL := " bytes to fit the compaction window ...]"
  const USIZE_MAX := 0xFFFF_FFFF_FFFF_FFFF

  function SaturatingSub(a: nat, b: nat): nat {
    if a < b then 0 else a - b
  }

  function Marker(dropped: nat): string {
    MARKER_HEAD + Render(dropped) + MARKER_TAIL
  }

  /** The part of a too long text that is kept. */
  function Kept(s: string, maxBytes: nat): string {
    Prefix(s, SaturatingSub(maxBytes, MARKER_RESERVE))
  }

  function TruncatedText(s: string, maxBytes: nat): string {
    if Len(s) <= maxBytes then s
    else
      PrefixIsLastBoundary(s, SaturatingSub(maxBytes, MARKER_RESERVE));
      Kept(s, maxBytes) + Marker(Len(s) - Len(Kept(s, maxBytes)))
  }

  /** `truncate_text_to_bytes`: the cut is searched backwards, byte by byte. */
  method TruncateTextToBytes(s: string, maxBytes: nat) returns (r: Option<string>)
    ensures r.None? <==> Len(s) <= maxBytes
    ensures r.GetOr(s) == TruncatedText(s, maxBytes)
  {
    hide Marker, Encode, Prefix;
    var bytes := Encode(s);
    if |bytes| <= maxBytes {
      return None;
    }
    var keep := SaturatingSub(maxBytes, MARKER_RESERVE);
    var end := if keep < |bytes| then keep else |bytes|;
    ghost var cut := Len(Prefix(s, keep));
    PrefixIsLastBoundary(s, keep);
    while end > 0 && !IsCharBoundary(bytes, end)
      invariant cut <= end <= keep && end <= |bytes|
    {
      end := end - 1;
    }
    assert end == cut;
    PrefixAtBoundary(s, keep);
    r := Some(Prefix(s, end) + Marker(|bytes| - end));
  }

  lemma PrefixAtBoundary(s: string, n: nat)
    ensures var p := Prefix(s, n); Prefix(s, Len(p)) == p
  {
    hide Prefix, Encode;
    var p := Prefix(s, n);
    var q := Prefix(s, Len(p));
    PrefixSpec(s, n);
    PrefixSpec(s, Len(p));
    PrefixIsLongest(s, Len(p), |p|);
    PrefixIsLongest(s, n, |q|);
    PrefixIsLastBoundary(s, n);
  }

  // ------------------------------------------------------------ sizes

  ghost predicate IsAscii(s: string) {
    forall i | 0 <= i < |s| :: s[i] as int < 0x80
  }

  lemma RenderIsAscii(n: nat)
    ensures IsAscii(Render(n))
  {
    RenderRoundTrip(n);
  }

  lemma MarkerIsAscii()
    ensures IsAscii(MARKER_HEAD) && IsAscii(MARKER_TAIL) && |MARKER_HEAD| + |MARKER_TAIL| == MARKER_BYTES
  {
  }

  lemma AsciiParts(a: string, b: string, c: string)
    requires IsAscii(a) && IsAscii(b) && IsAscii(c)
    ensures Len(a + b + c) == |a| + |b| + |c|
  {
    AsciiLen(a + b + c);
  }

  lemma MarkerLen(dropped: nat)
    ensures Len(Marker(dropped)) == MARKER_BYTES + |Render(dropped)|
  {
    RenderIsAscii(dropped);
    MarkerIsAscii();
    hide IsAscii, Encode;
    AsciiParts(MARKER_HEAD, Render(dropped), MARKER_TAIL);
  }

  /** What truncation keeps: the longest prefix that ends between two characters and leaves
      room for the reserve; the marker reports exactly the dropped bytes. */
  lemma TruncationKeeps(s: string, maxBytes: nat)
    requires Len(s) > maxBytes
    ensures var k := Kept(s, maxBytes);
      && |k| <= |s| && k == s[..|k|]
      && IsCharBoundary(Encode(s), Len(k)) && Len(k) <= SaturatingSub(maxBytes, MARKER_RESERVE)
      && (forall j | 0 <= j <= |s| && Len(s[..j]) <= SaturatingSub(maxBytes, MARKER_RESERVE) :: j <= |k|)
      && TruncatedText(s, maxBytes) == k + Marker(Len(s) - Len(k))
      && Len(TruncatedText(s, maxBytes)) == Len(k) + MARKER_BYTES + |Render(Len(s) - Len(k))|
  {
    hide Marker, Encode, Prefix, Render;
    var keep := SaturatingSub(maxBytes, MARKER_RESERVE);
    var k := Kept(s, maxBytes);
    PrefixSpec(s, keep);
    PrefixIsLastBoundary(s, keep);
    forall j | 0 <= j <= |s| && Len(s[..j]) <= keep ensures j <= |k| {
      PrefixIsLongest(s, keep, j);
    }
    EncodeConcat(k, Marker(Len(s) - Len(k)));
    MarkerLen(Len(s) - Len(k));
  }

  lemma Pow10Of8()
    ensures Pow10(8) == 100_000_000
  {
    assert Pow10(4) == 10_000;
    assert Pow10(8) == 10 * Pow10(7) == 100 * Pow10(6) == 1000 * Pow10(5) == 10_000 * Pow10(4);
  }

  /** With a text below 10^8 bytes, the result has at most max(maxBytes, 64) bytes. */
  lemma TruncationBound(s: string, maxBytes: nat)
    requires Len(s) < 100_000_000
    ensures Len(TruncatedText(s, maxBytes)) <= if maxBytes < MARKER_RESERVE then MARKER_RESERVE else maxBytes
  {
    hide Encode, Prefix, Render, Marker;
    if Len(s) > maxBytes {
      TruncationKeeps(s, maxBytes);
      Pow10Of8();
      DigitCount(Len(s) - Len(Kept(s, maxBytes)), 8);
    }
  }

  lemma {:induction false} RenderGrows(m: nat, n: nat)
    requires m <= n
    ensures 1 <= |Render(m)| <= |Render(n)|
  {
    if n >= 10 && m >= 10 {
      RenderGrows(m / 10, n / 10);
    } else if n >= 10 {
      RenderGrows(0, n / 10);
    }
  }

  /** The documented "within `max_bytes`" holds exactly when the text already fits or the bytes
      behind its last boundary before the reserve are few enough for their count to have room
      beside the marker. */
  lemma WithinBoundIff(s: string, maxBytes: nat)
    ensures var kept := Len(Prefix(s, SaturatingSub(maxBytes, MARKER_RESERVE)));
      Len(TruncatedText(s, maxBytes)) <= maxBytes <==>
        || Len(s) <= maxBytes
        || (kept + MARKER_BYTES < maxBytes && Len(s) < kept + Pow10(maxBytes - kept - MARKER_BYTES))
  {
    hide Encode, Prefix, Render, Marker, Pow10;
    if Len(s) > maxBytes {
      TruncationKeeps(s, maxBytes);
      var kept := Len(Kept(s, maxBytes));
      RenderGrows(0, Len(s) - kept);
      if kept + MARKER_BYTES < maxBytes {
        DigitCount(Len(s) - kept, maxBytes - kept - MARKER_BYTES);
      }
    }
  }

  /** For a text below 10^8 bytes that is when the bound leaves room for a marker that drops the
      whole text. */
  lemma WithinBoundIfSmall(s: string, maxBytes: nat)
    requires Len(s) < 100_000_000
    ensures Len(TruncatedText(s, maxBytes)) <= maxBytes <==>
      Len(s) <= maxBytes || MARKER_BYTES + |Render(Len(s))| <= maxBytes
  {
    hide Encode, Prefix, Render, Marker;
    if Len(s) > maxBytes {
      TruncationKeeps(s, maxBytes);
      TruncationBound(s, maxBytes);
      Pow10Of8();
      DigitCount(Len(s), 8);
      RenderGrows(0, Len(s));
    }
  }

  /** A short bound is exceeded: the marker alone is longer. */
  lemma ShortBoundExceeded(s: string, maxBytes: nat)
    requires maxBytes < Len(s) && maxBytes <= MARKER_BYTES
    ensures Len(TruncatedText(s, maxBytes)) > maxBytes
  {
    hide Encode, Prefix, Render, Marker;
    TruncationKeeps(s, maxBytes);
    RenderGrows(0, Len(s) - Len(Kept(s, maxBytes)));
  }

  // ------------------------------------------------------------ items

  /** `(max_tokens as usize).saturating_mul(4)`. */
  function ByteBound(maxTokens: nat): nat {
    if 4 * maxTokens <= USIZE_MAX then 4 * maxTokens else USIZE_MAX
  }

  function TruncatedParts(parts: seq<ContentPart>, maxBytes: nat): (r: seq<ContentPart>)
    ensures |r| == |parts|
  {
    if parts == [] then []
    else
      [match parts[0]
       case Text(t) => Text(TruncatedText(t, maxBytes))
       case Image(_) => parts[0]]
      + TruncatedParts(parts[1..], maxBytes)
  }

  /** `truncate_item_to_tokens`. */
  function TruncatedItem(x: Item, maxTokens: nat): Item {
    var maxBytes := ByteBound(maxTokens);
    match x
    case ToolResult(id, content, images) => ToolResult(id, TruncatedText(content, maxBytes), images)
    case Assistant(content, calls) => Assistant(TruncatedText(content, maxBytes), calls)
    case User(parts, reason) => User(TruncatedParts(parts, maxBytes), reason)
    case _ => x
  }
}
