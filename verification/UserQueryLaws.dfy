/** Query text in every shape: with, without and with an unclosed `<user_query>`, over several
    parts, and what one tag block costs. */
module UserQueryLaws {
  import opened Wrappers
  import opened Text
  import opened Conversation
  import opened UserQuery
  import opened StripTwice

  // ------------------------------------------------------------ extraction

  /** Without the tag the whole text is the query, up to its metadata blocks. */
  lemma ExtractAbsent(text: string)
    requires !Contains(text, "<user_query>")
    ensures ExtractUserQuery(text) == StripSystemTags(text)
    ensures TagFree(text, SYSTEM_TAGS) ==> ExtractUserQuery(text) == Trim(text)
  {
    FindSpec(text, QUERY_OPEN);
    StripTagsSpec(text, SYSTEM_TAGS);
    hide Find, Contains, StripTags, Trim, TagFree;
  }

  /** So it is when the tag is never closed: the tag itself stays in the query. */
  lemma ExtractUnclosed(before: string, rest: string)
    requires !Contains(before, "<user_query>") && !Contains(rest, "</user_query>")
    ensures ExtractUserQuery(before + "<user_query>" + rest) == StripSystemTags(before + "<user_query>" + rest)
  {
    assert IsTag(QUERY_OPEN);
    FindSpec(rest, QUERY_CLOSE);
    Behind(before, QUERY_OPEN, rest);
    hide Find, Contains, StripSystemTags, IsTag;
    FindAfter(before, QUERY_OPEN, rest);
  }

  lemma Behind(a: string, t: string, b: string)
    ensures (a + t + b)[|a| + |t|..] == b
  {
  }

  /** Otherwise it is what stands between the first opening tag and the next closing one,
      whatever surrounds them. */
  lemma ExtractClosed(before: string, query: string, after: string)
    requires !Contains(before, "<user_query>") && !Contains(query, "</user_query>")
    ensures ExtractUserQuery(before + "<user_query>" + (query + "</user_query>" + after)) == StripSystemTags(Trim(query))
  {
    assert QUERY_OPEN == "<user_query>" && QUERY_CLOSE == "</user_query>";
    hide *;
    FirstQuery(before, query, after);
    ExtractStep(before + QUERY_OPEN + (query + QUERY_CLOSE + after), |before|, query);
  }

  lemma FirstQuery(before: string, query: string, after: string)
    requires !Contains(before, QUERY_OPEN) && !Contains(query, QUERY_CLOSE)
    ensures var rest := query + QUERY_CLOSE + after; var text := before + QUERY_OPEN + rest;
      && Find(text, QUERY_OPEN) == Some(|before|) && text[|before| + |QUERY_OPEN|..] == rest
      && Find(rest, QUERY_CLOSE) == Some(|query|) && rest[..|query|] == query
  {
    assert IsTag(QUERY_OPEN) && IsTag(QUERY_CLOSE);
    hide Find, Contains, IsTag;
    FindAfter(before, QUERY_OPEN, query + QUERY_CLOSE + after);
    FindAfter(query, QUERY_CLOSE, after);
    Behind(before, QUERY_OPEN, query + QUERY_CLOSE + after);
  }

  lemma ExtractStep(text: string, i: nat, query: string)
    requires Find(text, QUERY_OPEN) == Some(i)
    requires var rest := text[i + |QUERY_OPEN|..];
      Find(rest, QUERY_CLOSE) == Some(|query|) && rest[..|query|] == query
    ensures ExtractUserQuery(text) == StripSystemTags(Trim(query))
  {
    hide Find, StripSystemTags, Trim;
    var from := i + |QUERY_OPEN|;
    assert text[from..from + |query|] == text[from..][..|query|];
  }

  /** The first block of a tag goes with its tags, and nothing else does. */
  lemma BlockGone(before: string, tag: string, inside: string, after: string)
    requires PlainName(tag) && !Contains(before, "<" + tag + ">") && !Contains(inside, "</" + tag + ">")
    ensures var open, close := "<" + tag + ">", "</" + tag + ">";
      StripTag(before + open + (inside + close + after), open, close) == StripTag(before + after, open, close)
  {
    var open, close := Open(tag), Close(tag);
    OpenShape(tag);
    var rest := inside + close + after;
    BlockSlices(before, open, inside, close, after);
    hide Find, Contains, StripTag, Cut, PlainName;
    FindAfter(before, open, rest);
    BehindOpen(open, inside, close);
    FindAfter(open + inside, close, after);
    hide Open, Close, IsTag;
    StripTagStep(before + open + rest, open, close, |before|, |open + inside|);
  }

  lemma BehindOpen(open: string, inside: string, close: string)
    requires IsTag(open) && IsTag(close) && open[1] != close[1] && !Contains(inside, close)
    ensures !Contains(open + inside, close)
  {
    if p: nat :| p <= |open + inside| && At(open + inside, p, close) {
      AtChar(open + inside, p, close, 0);
      AtChar(open + inside, p, close, 1);
      AtRight(open, inside, p, close);
      assert false;
    }
  }

  lemma BlockSlices(a: string, o: string, m: string, c: string, b: string)
    ensures var s := a + o + (m + c + b);
      && s[|a|..] == o + m + c + b
      && Cut(s, |a|, |a| + |o + m| + |c|) == a + b
  {
    var s := a + o + (m + c + b);
    assert s == a + (o + m + c + b) && s == (a + o + m + c) + b;
  }

  // ------------------------------------------------------------ the text of several parts

  lemma JoinOne(text: string, url: string)
    ensures JoinTexts([Text(text)]) == text && JoinTexts([Image(url)]) == "" && JoinTexts([]) == ""
  {
  }

  /** Text parts are joined with one newline each; images add nothing. */
  lemma {:induction false} JoinConcat(a: seq<ContentPart>, b: seq<ContentPart>)
    ensures JoinTexts(a + b) ==
      if !HasText(a) then JoinTexts(b)
      else if !HasText(b) then JoinTexts(a)
      else JoinTexts(a) + "\n" + JoinTexts(b)
  {
    if a == [] {
      assert a + b == b;
    } else {
      var d := a[1..];
      assert (a + b)[1..] == d + b;
      JoinConcat(d, b);
      TextInParts(d, b);
      FirstPart(a);
      hide HasText;
    }
  }

  lemma FirstPart(a: seq<ContentPart>)
    requires a != []
    ensures HasText(a) <==> a[0].Text? || HasText(a[1..])
  {
    if k :| 0 <= k < |a| && a[k].Text? {
      assert k > 0 ==> a[1..][k - 1].Text?;
    }
    if k :| 0 <= k < |a[1..]| && a[1..][k].Text? {
      assert a[k + 1].Text?;
    }
  }

  lemma TextInParts(a: seq<ContentPart>, b: seq<ContentPart>)
    ensures HasText(a + b) <==> HasText(a) || HasText(b)
  {
    if k :| 0 <= k < |a| && a[k].Text? {
      assert (a + b)[k].Text?;
    }
    if k :| 0 <= k < |b| && b[k].Text? {
      assert (a + b)[|a| + k].Text?;
    }
  }

  // ------------------------------------------------------------ real turns

  /** A real turn: a user item of no synthetic origin with an image, even without any text, or
      with a query that is neither empty, nor the sentinel, nor the continuation prompt. */
  lemma RealTurnIff(x: Item)
    ensures IsRealUserTurn(x) <==>
      && x.User? && x.synthetic == None
      && ((exists k | 0 <= k < |x.parts| :: x.parts[k].Image?)
          || ExtractUserQuery(JoinTexts(x.parts)) !in {"", "__auto_continue__", AUTO_CONTINUE_PROMPT})
  {
    hide ExtractUserQuery, JoinTexts;
  }

  lemma {:induction false} ImageOnlyTurn(parts: seq<ContentPart>)
    requires parts != [] && forall k | 0 <= k < |parts| :: parts[k].Image?
    ensures IsRealUserTurn(User(parts, None)) && QueryOf(User(parts, None)) == ""
  {
    assert parts[0].Image?;
    NoTexts(parts);
    NothingExtracted();
    hide ExtractUserQuery, JoinTexts;
  }

  lemma {:induction false} NoTexts(parts: seq<ContentPart>)
    requires forall k | 0 <= k < |parts| :: parts[k].Image?
    ensures JoinTexts(parts) == ""
  {
    if parts != [] {
      NoTexts(parts[1..]);
    }
  }

  lemma NothingExtracted()
    ensures ExtractUserQuery("") == ""
  {
    var text := "";
    assert !Contains(text, "<user_query>");
    forall t | t in SYSTEM_TAGS ensures !HasPair(text, Open(t), Close(t)) {
      assert |Open(t)| >= 2;
    }
    ExtractAbsent(text);
    hide ExtractUserQuery, Contains;
  }
}
