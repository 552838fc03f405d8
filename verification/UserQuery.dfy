/** Query text: wrapping, extraction, metadata-tag stripping and the classification of real
    user turns. */
module UserQuery {
  import opened Wrappers
  import opened Text
  import opened Conversation

  const QUERY_OPEN := "<user_query>"
  const QUERY_CLOSE := "</user_query>"

  const SYSTEM_TAGS: seq<string> := [
    "user_info", "project_layout", "git_status", "fork-context", "system-reminder",
    "agent-memory", "system_reminder", "background_context", "command-name",
    "command-message", "command-args"
  ]

  function Open(tag: string): string {
    "<" + tag + ">"
  }

  function Close(tag: string): string {
    "</" + tag + ">"
  }

  // ------------------------------------------------------------ stripping tag blocks

  /** Removes `<tag>…</tag>` blocks, first one first, until none is left. */
  function StripTag(s: string, open: string, close: string): (r: string)
    requires close != []
    ensures |r| <= |s|
    decreases |s|
  {
    match Find(s, open)
    case None => s
    case Some(start) =>
      match Find(s[start..], close)
      case None => s
      case Some(rel) => StripTag(Cut(s, start, start + rel + |close|), open, close)
  }

  function StripTags(s: string, tags: seq<string>): (r: string)
    ensures |r| <= |s|
    decreases |tags|
  {
    if tags == [] then s
    else StripTags(StripTag(s, Open(tags[0]), Close(tags[0])), tags[1..])
  }

  function StripSystemTags(text: string): string {
    Trim(StripTags(text, SYSTEM_TAGS))
  }

  /** `strip_system_tags`: one pass per tag, in the fixed order. */
  method StripSystemTagBlocks(text: string) returns (r: string)
    ensures r == StripSystemTags(text)
  {
    hide Find, Cut, Trim, Contains;
    var tags := SYSTEM_TAGS;
    r := text;
    var i := 0;
    assert tags[0..] == tags;
    while i < |tags|
      invariant i <= |tags|
      invariant StripTags(r, tags[i..]) == StripTags(text, tags)
    {
      assert tags[i..][0] == tags[i] && tags[i..][1..] == tags[i + 1..];
      r := StripOneTag(r, Open(tags[i]), Close(tags[i]));
      i := i + 1;
    }
    assert tags[i..] == [];
    r := Trim(r);
  }

  method StripOneTag(s: string, open: string, close: string) returns (r: string)
    requires close != []
    ensures r == StripTag(s, open, close)
  {
    hide Find, Cut;
    r := s;
    while true
      invariant StripTag(r, open, close) == StripTag(s, open, close)
      decreases |r|
    {
      var start := Find(r, open);
      if start.None? {
        break;
      }
      var rel := Find(r[start.value..], close);
      if rel.None? {
        break;
      }
      r := Cut(r, start.value, start.value + rel.value + |close|);
    }
  }

  /** A closing tag stands at or after an opening one. */
  ghost predicate HasPair(s: string, open: string, close: string) {
    exists p: nat, q: nat | p <= q :: At(s, p, open) && At(s, q, close)
  }

  ghost predicate TagFree(s: string, tags: seq<string>) {
    forall t | t in tags :: !HasPair(s, Open(t), Close(t))
  }

  lemma PairFound(s: string, open: string, close: string)
    ensures HasPair(s, open, close) <==>
      Find(s, open).Some? && Find(s[Find(s, open).value..], close).Some?
  {
    FindSpec(s, open);
    hide Find;
    var f := Find(s, open);
    if f.Some? {
      var t := s[f.value..];
      FindSpec(t, close);
      if p: nat, q: nat :| p <= q && At(s, p, open) && At(s, q, close) {
        assert f.value <= p;
        assert s == s[..f.value] + t;
        AtRight(s[..f.value], t, q, close);
        assert At(t, q - f.value, close);
      }
      var g := Find(t, close);
      if g.Some? {
        assert s == s[..f.value] + t;
        AtRight(s[..f.value], t, f.value + g.value, close);
      }
    }
  }

  /** A tag's own pass leaves no block of that tag, and touches only texts that have one. */
  lemma {:induction false} StripTagSpec(s: string, open: string, close: string)
    requires close != []
    ensures !HasPair(StripTag(s, open, close), open, close)
    ensures if HasPair(s, open, close) then |StripTag(s, open, close)| < |s| else StripTag(s, open, close) == s
    decreases |s|
  {
    PairFound(s, open, close);
    hide Find, HasPair, Cut;
    match Find(s, open)
    case None =>
    case Some(start) =>
      match Find(s[start..], close)
      case None =>
      case Some(rel) =>
        StripTagSpec(Cut(s, start, start + rel + |close|), open, close);
  }

  /** The texts that a series of passes leaves alone. */
  lemma {:induction false} StripTagsSpec(s: string, tags: seq<string>)
    ensures if TagFree(s, tags) then StripTags(s, tags) == s else |StripTags(s, tags)| < |s|
    decreases |tags|
  {
    hide StripTag, HasPair;
    if tags != [] {
      var s' := StripTag(s, Open(tags[0]), Close(tags[0]));
      StripTagSpec(s, Open(tags[0]), Close(tags[0]));
      StripTagsSpec(s', tags[1..]);
      assert tags == [tags[0]] + tags[1..];
    }
  }

  // ------------------------------------------------------------ extraction and wrapping

  function ExtractUserQuery(text: string): string {
    match Find(text, QUERY_OPEN)
    case Some(start) =>
      var from := start + |QUERY_OPEN|;
      (match Find(text[from..], QUERY_CLOSE)
       case Some(end) => StripSystemTags(Trim(text[from..from + end]))
       case None => StripSystemTags(text))
    case None => StripSystemTags(text)
  }

  function WrapUserQuery(query: string): string {
    QUERY_OPEN + ("\n" + query + "\n") + QUERY_CLOSE
  }

  /** The queries that wrapping and extracting returns unchanged, as a caller can check them. */
  ghost predicate Extractable(q: string) {
    Trimmed(q) && !Contains(q, QUERY_CLOSE) && TagFree(q, SYSTEM_TAGS)
  }

  lemma TrimShrinks(s: string)
    ensures |Trim(s)| <= |s|
  {
    var l, r := TrimSplit(s);
    hide Trim;
    assert |s| == |l| + |Trim(s)| + |r|;
  }

  /** A newline on either side adds no closing tag. */
  lemma PaddedLacks(q: string)
    ensures Contains("\n" + q + "\n", QUERY_CLOSE) ==> Contains(q, QUERY_CLOSE)
  {
    var t := QUERY_CLOSE;
    var s := "\n" + q + "\n";
    assert IsTag(t) && t[|t| - 1] != '\n';
    if p: nat :| p <= |s| && At(s, p, t) {
      AtChar(s, p, t, 0);
      AtChar(s, p, t, |t| - 1);
      assert p > 0 && p + |t| < |s|;
      assert s[1..|s| - 1] == q;
      forall k | 0 <= k < |t| ensures q[p - 1 + k] == t[k] {
        assert s[p + k] == t[k];
      }
      assert At(q, p - 1, t);
    }
  }

  ghost function Padded(q: string): string {
    "\n" + q + "\n"
  }

  lemma WrappedTags(q: string)
    ensures var text := WrapUserQuery(q);
      Find(text, QUERY_OPEN) == Some(0) && text[|QUERY_OPEN|..] == Padded(q) + QUERY_CLOSE
  {
    hide Find;
    var text := WrapUserQuery(q);
    assert text == QUERY_OPEN + (Padded(q) + QUERY_CLOSE) by {
      Associate(QUERY_OPEN, Padded(q), QUERY_CLOSE);
    }
    hide Padded, WrapUserQuery;
    AtStart(QUERY_OPEN, Padded(q) + QUERY_CLOSE);
    FindIs(text, QUERY_OPEN, 0);
  }

  lemma Associate(a: string, b: string, c: string)
    ensures a + b + c == a + (b + c)
  {
  }

  lemma AtStart(a: string, b: string)
    ensures At(a + b, 0, a) && (a + b)[|a|..] == b
  {
  }

  lemma ExtractBetween(text: string, rest: string, end: nat)
    requires Find(text, QUERY_OPEN) == Some(0) && text[|QUERY_OPEN|..] == rest
    requires Find(rest, QUERY_CLOSE) == Some(end)
    ensures end <= |rest| && ExtractUserQuery(text) == StripSystemTags(Trim(rest[..end]))
  {
    hide Find, StripSystemTags, Trim;
    var from := |QUERY_OPEN|;
    assert text[from..from + end] == text[from..][..end];
  }

  /** What extraction returns for a wrapped query without a closing tag. */
  lemma ExtractWrapped(q: string)
    requires !Contains(q, QUERY_CLOSE)
    ensures ExtractUserQuery(WrapUserQuery(q)) == StripSystemTags(Trim(q))
  {
    PaddedLacks(q);
    assert IsTag(QUERY_CLOSE);
    assert Blank("\n") by {
      assert IsSpace('\n');
    }
    TrimPadded("\n", q, "\n");
    var m := Padded(q);
    WrappedTags(q);
    FindAfter(m, QUERY_CLOSE, "");
    hide Find, Contains, IsTag, Blank, Trim, WrapUserQuery, ExtractUserQuery, StripSystemTags;
    NothingBehind(m, QUERY_CLOSE);
    ExtractBetween(WrapUserQuery(q), m + QUERY_CLOSE, |m|);
    hide Padded;
  }

  lemma NothingBehind(m: string, t: string)
    ensures m + t + "" == m + t && (m + t)[..|m|] == m
  {
  }

  lemma FirstClose(q: string)
    requires Contains(q, QUERY_CLOSE)
    ensures var f := Find(Padded(q) + QUERY_CLOSE, QUERY_CLOSE); f.Some? && f.value < |q|
  {
    var rest := Padded(q) + QUERY_CLOSE;
    var p: nat :| p <= |q| && At(q, p, QUERY_CLOSE);
    FindSpec(rest, QUERY_CLOSE);
    hide Find;
    forall k | 0 <= k < |QUERY_CLOSE| ensures rest[p + 1 + k] == QUERY_CLOSE[k] {
      assert rest[1 + (p + k)] == q[p + k];
    }
    assert At(rest, p + 1, QUERY_CLOSE);
  }

  /** With a closing tag inside, the extracted query is cut short. */
  lemma ExtractCutShort(q: string)
    requires Contains(q, QUERY_CLOSE)
    ensures |ExtractUserQuery(WrapUserQuery(q))| < |q|
  {
    FirstClose(q);
    WrappedTags(q);
    hide Find, StripTags, Trim, Contains, WrapUserQuery, ExtractUserQuery, Padded;
    var rest := Padded(q) + QUERY_CLOSE;
    var e := Find(rest, QUERY_CLOSE).value;
    ExtractBetween(WrapUserQuery(q), rest, e);
    TrimShrinks(rest[..e]);
    TrimShrinks(StripTags(Trim(rest[..e]), SYSTEM_TAGS));
  }

  /** Wrapping then extracting is the identity on exactly the extractable queries. */
  lemma WrapRoundTrip(q: string)
    ensures ExtractUserQuery(WrapUserQuery(q)) == q <==> Extractable(q)
  {
    if Contains(q, QUERY_CLOSE) {
      ExtractCutShort(q);
    } else {
      ExtractWrapped(q);
      hide ExtractUserQuery, WrapUserQuery, Contains;
      StripTagsSpec(Trim(q), SYSTEM_TAGS);
      TrimSpec(StripTags(Trim(q), SYSTEM_TAGS));
      TrimShrinks(StripTags(Trim(q), SYSTEM_TAGS));
      if Trimmed(q) {
        TrimTrimmed(q);
      }
      hide Trim, StripTags, TagFree, Trimmed;
    }
  }

  // ------------------------------------------------------------ real user turns

  const AUTO_CONTINUE_SENTINEL := "__auto_continue__"

  /** The continuation prompt. Its text is left unspecified, so every result below holds
      whatever the prompt says. */
  const AUTO_CONTINUE_PROMPT: string

  /** `is_synthetic_extracted_query`. */
  predicate IsSyntheticQuery(text: string) {
    text == "" || text == AUTO_CONTINUE_SENTINEL || text == AUTO_CONTINUE_PROMPT
  }

  /** `text_content` of a user item: its text parts joined by newlines. */
  function JoinTexts(parts: seq<ContentPart>): string {
    if parts == [] then ""
    else if parts[0].Image? then JoinTexts(parts[1..])
    else if HasText(parts[1..]) then parts[0].text + "\n" + JoinTexts(parts[1..])
    else parts[0].text
  }

  predicate HasText(parts: seq<ContentPart>) {
    exists k | 0 <= k < |parts| :: parts[k].Text?
  }

  predicate HasImage(parts: seq<ContentPart>) {
    exists k | 0 <= k < |parts| :: parts[k].Image?
  }

  function QueryOf(x: Item): string
    requires x.User?
  {
    ExtractUserQuery(JoinTexts(x.parts))
  }

  /** `is_real_user_turn`: images always count; text counts unless it extracts to a
      synthetic query. */
  predicate IsRealUserTurn(x: Item) {
    x.User? && x.synthetic.None? && (HasImage(x.parts) || !IsSyntheticQuery(QueryOf(x)))
  }

  function UserText(text: string): Item {
    User([Text(text)], None)
  }

  lemma UserTextQuery(text: string)
    ensures QueryOf(UserText(text)) == ExtractUserQuery(text)
    ensures IsRealUserTurn(UserText(text)) <==> !IsSyntheticQuery(ExtractUserQuery(text))
  {
    hide ExtractUserQuery, IsSyntheticQuery;
  }
}
