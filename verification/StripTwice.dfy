/** Why `strip_system_tags` is not idempotent: removing a later tag can complete an earlier
    one, whose pass is already over. */
module StripTwice {
  import opened Wrappers
  import opened Text
  import opened UserQuery

  /** Nothing in a tag name can be mistaken for the start or the end of a tag. */
  ghost predicate PlainName(tag: string) {
    0 < |tag| && tag[0] != '/' && Lacks(tag, '<') && Lacks(tag, '>')
  }

  ghost predicate PlainTags(tags: seq<string>) {
    forall k | 0 <= k < |tags| :: PlainName(tags[k])
  }

  /** An `a` block whose opening tag is interrupted by an empty `b` block. */
  ghost function Nested(a: string, cut: nat, b: string): string
    requires cut <= |a|
  {
    ("<" + a[..cut]) + Open(b) + Close(b) + (a[cut..] + ">" + Close(a))
  }

  lemma OpenShape(tag: string)
    requires PlainName(tag)
    ensures IsTag(Open(tag)) && IsTag(Close(tag)) && Open(tag)[1] != '/'
    ensures |Open(tag)| == |tag| + 2 && Open(tag)[|tag| + 1] == '>' && Lacks(Open(tag)[1..], '<')
    ensures Close(tag)[1] == '/' && Lacks(Close(tag)[1..], '<')
  {
  }

  lemma OnlyAtStart(piece: string, t: string)
    requires IsTag(t) && piece != [] && Lacks(piece[1..], '<')
    ensures Contains(piece, t) ==> At(piece, 0, t)
  {
    if p: nat :| p <= |piece| && At(piece, p, t) {
      AtChar(piece, p, t, 0);
      assert forall k | 1 <= k < |piece| :: piece[k] != '<' by {
        assert forall k | 1 <= k < |piece| :: piece[k] == piece[1..][k - 1];
      }
    }
  }

  lemma AtSecond(s: string, t: string)
    requires 2 <= |t| && 2 <= |s| && s[1] != t[1]
    ensures !At(s, 0, t)
  {
  }

  /** A closing tag, and whatever follows it up to the next '<', holds no opening tag. */
  lemma ClosingPiece(piece: string, tag: string)
    requires PlainName(tag) && 2 <= |piece| && piece[1] == '/' && Lacks(piece[1..], '<')
    ensures !Contains(piece, Open(tag))
  {
    OpenShape(tag);
    hide Open, PlainName;
    OnlyAtStart(piece, Open(tag));
    AtSecond(piece, Open(tag));
  }

  lemma OpeningPiece(name: string, tag: string)
    requires PlainName(tag) && PlainName(name)
    ensures Contains(Open(name), Open(tag)) ==> tag == name
  {
    OpenShape(tag);
    OpenShape(name);
    OnlyAtStart(Open(name), Open(tag));
    if At(Open(name), 0, Open(tag)) {
      AtChar(Open(name), 0, Open(tag), |tag| + 1);
      forall k | 0 <= k < |tag| ensures tag[k] == name[k] {
        AtChar(Open(name), 0, Open(tag), k + 1);
      }
    }
  }

  /** An interrupted opening tag holds no opening tag. */
  lemma InterruptedPiece(start: string, tag: string)
    requires PlainName(tag) && Lacks(start, '>')
    ensures !Contains(start, Open(tag))
  {
    OpenShape(tag);
    if p: nat :| p <= |start| && At(start, p, Open(tag)) {
      assert start[p + (|tag| + 1)] == Open(tag)[|tag| + 1];
    }
  }

  lemma OpensInJoined(a: string, tag: string)
    requires PlainName(a) && PlainName(tag)
    ensures Contains(Open(a) + Close(a), Open(tag)) ==> tag == a
  {
    OpenShape(tag);
    OpenShape(a);
    OpeningPiece(a, tag);
    ClosingPiece(Close(a), tag);
    hide Open, Close;
    SplitAtOpen(Open(a), Close(a), Open(tag));
  }

  lemma OpensInNested(a: string, cut: nat, b: string, tag: string)
    requires PlainName(a) && PlainName(b) && PlainName(tag) && cut <= |a|
    ensures Contains(Nested(a, cut, b), Open(tag)) ==> tag == b
  {
    var start, middle := "<" + a[..cut], Close(b) + (a[cut..] + ">");
    OpenShape(tag);
    OpenShape(a);
    OpenShape(b);
    OpeningPiece(b, tag);
    ClosingPiece(middle, tag);
    ClosingPiece(Close(a), tag);
    InterruptedPiece(start, tag);
    NestedParts(start, Open(b), Close(b), a[cut..] + ">", Close(a));
    hide Open, Close;
    SplitAtOpen(start + Open(b) + middle, Close(a), Open(tag));
    SplitAtOpen(start + Open(b), middle, Open(tag));
    SplitAtOpen(start, Open(b), Open(tag));
  }

  lemma NestedParts(s: string, b: string, c: string, e: string, d: string)
    ensures s + b + c + (e + d) == s + b + (c + e) + d
  {
  }

  /** Passes over tags that the text does not open change nothing. */
  lemma NothingOpened(s: string, tags: seq<string>)
    requires forall t | t in tags :: !Contains(s, Open(t))
    ensures StripTags(s, tags) == s
  {
    hide Open, Close;
    forall t | t in tags ensures !HasPair(s, Open(t), Close(t)) {
      PairFound(s, Open(t), Close(t));
      FindSpec(s, Open(t));
    }
    StripTagsSpec(s, tags);
  }

  lemma {:induction false} StripTagsConcat(s: string, a: seq<string>, b: seq<string>)
    ensures StripTags(s, a + b) == StripTags(StripTags(s, a), b)
    decreases |a|
  {
    hide StripTag;
    if a == [] {
      assert a + b == b;
    } else {
      assert (a + b)[1..] == a[1..] + b;
      StripTagsConcat(StripTag(s, Open(a[0]), Close(a[0])), a[1..], b);
    }
  }

  /** The pass of the inner tag joins the outer one. */
  lemma InnerPass(a: string, cut: nat, b: string)
    requires PlainName(a) && PlainName(b) && a != b && cut <= |a|
    ensures StripTag(Nested(a, cut, b), Open(b), Close(b)) == Open(a) + Close(a)
  {
    var start, end := "<" + a[..cut], a[cut..] + ">" + Close(a);
    var s := Nested(a, cut, b);
    OpenShape(b);
    OpenShape(a);
    InterruptedPiece(start, b);
    OnlyAtStart(Open(b), Close(b));
    AtSecond(Open(b), Close(b));
    assert start + end == Open(a) + Close(a) by {
      assert a == a[..cut] + a[cut..];
    }
    OpensInJoined(a, b);
    StripNested(s, start, Open(b), Close(b), end);
    hide Open, Close, StripTag, Nested;
    PairFound(Open(a) + Close(a), Open(b), Close(b));
    FindSpec(Open(a) + Close(a), Open(b));
    StripTagSpec(Open(a) + Close(a), Open(b), Close(b));
  }

  lemma StripNested(s: string, start: string, open: string, close: string, end: string)
    requires IsTag(open) && IsTag(close) && !Contains(start, open) && !Contains(open, close)
    requires s == start + open + close + end
    ensures StripTag(s, open, close) == StripTag(start + end, open, close)
  {
    hide Find, Contains, StripTag;
    NestedSlices(s, start, open, close, end);
    FindAfter(start, open, close + end);
    FindAfter(open, close, end);
    hide Cut, IsTag;
    StripTagStep(s, open, close, |start|, |open|);
  }

  lemma NestedSlices(s: string, start: string, open: string, close: string, end: string)
    requires s == start + open + close + end
    ensures s == start + open + (close + end) && s[|start|..] == open + close + end
    ensures Cut(s, |start|, |start| + |open| + |close|) == start + end
  {
  }

  lemma StripTagStep(s: string, open: string, close: string, start: nat, rel: nat)
    requires close != [] && Find(s, open) == Some(start) && Find(s[start..], close) == Some(rel)
    ensures start + rel + |close| <= |s|
    ensures StripTag(s, open, close) == StripTag(Cut(s, start, start + rel + |close|), open, close)
  {
    hide Find, Cut;
  }

  lemma OneShorter(s: string, tags: seq<string>, tag: string)
    requires tag in tags && HasPair(s, Open(tag), Close(tag))
    ensures |StripTags(s, tags)| < |s|
  {
    hide HasPair;
    StripTagsSpec(s, tags);
  }

  lemma {:induction false} FirstRun(tags: seq<string>, j: nat, a: string, cut: nat)
    requires PlainTags(tags) && PlainName(a) && j < |tags| && cut <= |a| && a != tags[j]
    requires tags[j] !in tags[..j] && a !in tags[j + 1..]
    ensures StripTags(Nested(a, cut, tags[j]), tags) == Open(a) + Close(a)
  {
    var b := tags[j];
    var s, once := Nested(a, cut, b), Open(a) + Close(a);
    forall t | t in tags[..j] ensures !Contains(s, Open(t)) {
      OpensInNested(a, cut, b, t);
    }
    forall t | t in tags[j + 1..] ensures !Contains(once, Open(t)) {
      OpensInJoined(a, t);
    }
    InnerPass(a, cut, b);
    hide Nested, Contains, PlainTags, PlainName;
    NothingOpened(s, tags[..j]);
    NothingOpened(once, tags[j + 1..]);
    hide Open, Close, StripTag;
    SplitTags(tags, j);
    StripTagsConcat(s, tags[..j], tags[j..]);
  }

  lemma SplitTags(tags: seq<string>, j: nat)
    requires j < |tags|
    ensures tags == tags[..j] + tags[j..] && tags[j..][0] == tags[j] && tags[j..][1..] == tags[j + 1..]
  {
  }

  /** For any two tags of which `tags[i]` has its only pass before that of `tags[j]`: once the
      block of the later tag is gone, a block of the earlier one has appeared, and only a
      second run removes it. */
  lemma SecondRunStripsMore(tags: seq<string>, i: nat, j: nat, cut: nat)
    requires PlainTags(tags) && i < j < |tags| && cut <= |tags[i]|
    requires tags[j] !in tags[..j] && tags[i] !in tags[j + 1..]
    ensures var once := StripTags(Nested(tags[i], cut, tags[j]), tags);
      once == Open(tags[i]) + Close(tags[i]) && |StripTags(once, tags)| < |once|
  {
    var a := tags[i];
    assert a in tags[..j];
    FirstRun(tags, j, a, cut);
    PairInJoined(a);
    hide Open, Close, Nested, StripTags;
    OneShorter(Open(a) + Close(a), tags, a);
  }

  lemma PairInJoined(a: string)
    ensures HasPair(Open(a) + Close(a), Open(a), Close(a))
  {
    var s := Open(a) + Close(a);
    assert At(s, 0, Open(a)) && At(s, |Open(a)|, Close(a));
  }

  lemma EarlySystemTags(k: nat)
    requires k < 6
    ensures PlainName(SYSTEM_TAGS[k])
  {
  }

  lemma LateSystemTags(k: nat)
    requires 6 <= k < |SYSTEM_TAGS|
    ensures PlainName(SYSTEM_TAGS[k])
  {
  }

  lemma LastSystemTag()
    ensures |SYSTEM_TAGS| == 11 && SYSTEM_TAGS[10] !in SYSTEM_TAGS[..10] && 1 <= |SYSTEM_TAGS[9]|
  {
    var b := SYSTEM_TAGS[10];
    forall k | 0 <= k < 10 ensures SYSTEM_TAGS[k] != b {
      assert |SYSTEM_TAGS[k]| != 12 || SYSTEM_TAGS[k][0] != 'c' || SYSTEM_TAGS[k][8] != 'a';
    }
  }

  lemma SystemTagsArePlain()
    ensures PlainTags(SYSTEM_TAGS)
  {
    forall k | 0 <= k < |SYSTEM_TAGS| ensures PlainName(SYSTEM_TAGS[k]) {
      if k < 6 {
        EarlySystemTags(k);
      } else {
        LateSystemTags(k);
      }
    }
  }

  /** `strip_system_tags` is not idempotent. */
  lemma StripIsNotIdempotent()
    ensures exists text :: StripSystemTags(StripSystemTags(text)) != StripSystemTags(text)
  {
    LastSystemTag();
    SystemTagsArePlain();
    hide PlainName, PlainTags;
    StripSystemTwice(SYSTEM_TAGS, 9, 10);
    var once := StripTags(Nested(SYSTEM_TAGS[9], 1, SYSTEM_TAGS[10]), SYSTEM_TAGS);
    assert StripSystemTags(StripSystemTags(Nested(SYSTEM_TAGS[9], 1, SYSTEM_TAGS[10])))
        == Trim(StripTags(Trim(once), SYSTEM_TAGS));
  }

  lemma StripSystemTwice(tags: seq<string>, i: nat, j: nat)
    requires PlainTags(tags) && i < j < |tags| && 1 <= |tags[i]|
    requires tags[j] !in tags[..j] && tags[i] !in tags[j + 1..]
    ensures var once := StripTags(Nested(tags[i], 1, tags[j]), tags);
      Trim(once) == once && Trim(StripTags(once, tags)) != once
  {
    SecondRunStripsMore(tags, i, j, 1);
    var once := Open(tags[i]) + Close(tags[i]);
    assert once[0] == '<' && once[|once| - 1] == '>';
    hide Trim, StripTags, Nested, Open, Close;
    TrimTrimmed(once);
    TrimShrinks(StripTags(once, tags));
  }
}
