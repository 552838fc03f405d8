/** When one run of `strip_system_tags` is enough. */
module StripOnce {
  import opened Wrappers
  import opened Text
  import opened UserQuery
  import opened StripTwice

  /** Every '<' is closed by a '>' before the next '<' opens. */
  ghost predicate Closed(s: string) {
    forall i, j | 0 <= i < j < |s| && s[i] == '<' && s[j] == '<' :: ClosedBetween(s, i, j)
  }

  ghost predicate ClosedBetween(s: string, i: nat, j: nat)
    requires j <= |s|
  {
    exists k | i < k < j :: s[k] == '>'
  }

  /** An opening or closing tag: its only '<' comes first and its only '>' last. */
  ghost predicate IsBracket(t: string) {
    IsTag(t) && t[|t| - 1] == '>' && Lacks(t[..|t| - 1], '>')
  }

  lemma TagsAreBrackets(name: string)
    requires PlainName(name)
    ensures IsBracket(Open(name)) && IsBracket(Close(name)) && Open(name)[1] != Close(name)[1]
  {
    OpenShape(name);
  }

  // ------------------------------------------------------------ one removal

  lemma CutAt(s: string, i: nat, j: nat, k: nat)
    requires i <= j <= |s| && k < |Cut(s, i, j)|
    ensures Cut(s, i, j)[k] == if k < i then s[k] else s[k + (j - i)]
  {
  }

  /** An occurrence behind or in front of the joint was there before. */
  lemma CutApart(s: string, i: nat, j: nat, p: nat, t: string)
    requires i <= j <= |s|
    ensures p + |t| <= i ==> (At(Cut(s, i, j), p, t) <==> At(s, p, t))
    ensures i <= p ==> (At(Cut(s, i, j), p, t) <==> At(s, p + (j - i), t))
  {
    if p + |t| <= i {
      AtLeft(s[..i], s[j..], p, t);
      assert s == s[..i] + s[i..];
      AtLeft(s[..i], s[i..], p, t);
    }
    if i <= p {
      AtRight(s[..i], s[j..], p, t);
      assert s == s[..j] + s[j..];
      AtRight(s[..j], s[j..], p + (j - i), t);
    }
  }

  /** `t` stands across the joint that removing `i..j` makes. */
  ghost predicate Spans(s: string, i: nat, j: nat, p: nat, t: string)
    requires i <= j <= |s|
  {
    p < i < p + |t| && At(Cut(s, i, j), p, t)
  }

  /** A proper non-empty beginning of `t`, `m` characters long, stands directly before `next`,
      which stands at `i`. */
  ghost predicate Breaks(s: string, i: nat, t: string, m: nat, next: string) {
    At(s, i, next) && 0 < m < |t| && m <= i && s[i - m..i] == t[..m]
  }

  /** An opening or closing tag of the list. */
  ghost predicate IsPiece(t: string, tags: seq<string>) {
    exists name | name in tags :: t == Open(name) || t == Close(name)
  }

  /** No listed tag is broken off by a listed opening tag. */
  ghost predicate Unbroken(s: string, tags: seq<string>) {
    forall i: nat, t, m: nat, name | IsPiece(t, tags) && name in tags :: !Breaks(s, i, t, m, Open(name))
  }

  lemma SpansBreaks(s: string, i: nat, j: nat, p: nat, t: string, next: string)
    requires i <= j <= |s| && Spans(s, i, j, p, t) && At(s, i, next)
    ensures Breaks(s, i, t, i - p, next)
  {
    assert Cut(s, i, j)[p..i] == s[p..i];
    AtBeginning(Cut(s, i, j), p, t, i - p);
    hide At, Cut;
  }

  /** In an unbroken text no listed tag stands across the joint left by a block. */
  lemma NothingSpans(s: string, i: nat, j: nat, p: nat, t: string, tags: seq<string>, name: string)
    requires Unbroken(s, tags) && IsPiece(t, tags) && name in tags && At(s, i, Open(name)) && i <= j <= |s|
    ensures !Spans(s, i, j, p, t)
  {
    hide IsPiece, Open, At, Breaks;
    if Spans(s, i, j, p, t) {
      SpansBreaks(s, i, j, p, t, Open(name));
    }
  }

  lemma AtBeginning(s: string, p: nat, t: string, m: nat)
    requires At(s, p, t) && m <= |t|
    ensures s[p..p + m] == t[..m]
  {
  }

  lemma Shorter(s: string, a: nat, i: nat, k: nat, t: string)
    requires a <= i <= k <= |s| && k - a <= |t| && s[a..k] == t[..k - a]
    ensures s[a..i] == t[..i - a]
  {
    assert s[a..i] == s[a..k][..i - a];
    assert t[..i - a] == t[..k - a][..i - a];
  }

  /** What stands directly before `next` behind the joint did so before, or stood before the
      removed block. */
  lemma BreaksBehind(s: string, i: nat, j: nat, k: nat, t: string, m: nat, next: string, first: string)
    requires i <= j <= |s| && i <= k && Breaks(Cut(s, i, j), k, t, m, next) && At(s, i, first)
    ensures Breaks(s, k + (j - i), t, m, next) || exists n :: Breaks(s, i, t, n, first)
  {
    var c, d := Cut(s, i, j), j - i;
    CutApart(s, i, j, k, next);
    hide At;
    if i <= k - m {
      assert c[k - m..k] == s[k - m + d..k + d];
      assert Breaks(s, k + d, t, m, next);
    } else {
      Shorter(c, k - m, i, k, t);
      assert c[k - m..i] == s[k - m..i];
      assert Breaks(s, i, t, i - (k - m), first);
    }
  }

  lemma BreaksBefore(s: string, i: nat, j: nat, k: nat, t: string, m: nat, next: string)
    requires i <= j <= |s| && k + |next| <= i && Breaks(Cut(s, i, j), k, t, m, next)
    ensures Breaks(s, k, t, m, next)
  {
    CutApart(s, i, j, k, next);
    hide At;
    assert Cut(s, i, j)[k - m..k] == s[k - m..k];
  }

  lemma CutStaysUnbroken(s: string, i: nat, j: nat, tags: seq<string>, name: string)
    requires Unbroken(s, tags) && name in tags && At(s, i, Open(name)) && i <= j <= |s|
    ensures Unbroken(Cut(s, i, j), tags)
  {
    var c, d := Cut(s, i, j), j - i;
    hide IsPiece, Open, At, Cut;
    forall k: nat, t, m: nat, x | IsPiece(t, tags) && x in tags ensures !Breaks(c, k, t, m, Open(x)) {
      if Breaks(c, k, t, m, Open(x)) {
        assert IsPiece(Open(x), tags) by { OpensArePieces(x, tags); }
        NothingSpans(s, i, j, k, Open(x), tags, name);
        hide Breaks;
        if i <= k {
          BreaksBehind(s, i, j, k, t, m, Open(x), Open(name));
        } else {
          BreaksBefore(s, i, j, k, t, m, Open(x));
        }
      }
    }
  }

  lemma OpensArePieces(name: string, tags: seq<string>)
    requires name in tags
    ensures IsPiece(Open(name), tags) && IsPiece(Close(name), tags)
  {
  }

  /** Removing a listed block from an unbroken text makes no pair of listed tags. */
  lemma CutMakesNoPair(s: string, i: nat, j: nat, tags: seq<string>, name: string, other: string)
    requires Unbroken(s, tags) && name in tags && other in tags && At(s, i, Open(name)) && i <= j <= |s|
    ensures HasPair(Cut(s, i, j), Open(other), Close(other)) ==> HasPair(s, Open(other), Close(other))
  {
    var c, open, close := Cut(s, i, j), Open(other), Close(other);
    OpensArePieces(other, tags);
    hide Unbroken, IsPiece, Cut, At, Open, Close;
    if p: nat, q: nat :| p <= q && At(c, p, open) && At(c, q, close) {
      NothingSpans(s, i, j, p, open, tags, name);
      NothingSpans(s, i, j, q, close, tags, name);
      PairApart(s, i, j, p, q, open, close);
    }
  }

  lemma PairApart(s: string, i: nat, j: nat, p: nat, q: nat, open: string, close: string)
    requires i <= j <= |s| && p <= q
    requires At(Cut(s, i, j), p, open) && !Spans(s, i, j, p, open)
    requires At(Cut(s, i, j), q, close) && !Spans(s, i, j, q, close)
    ensures HasPair(s, open, close)
  {
    hide Cut, At;
    CutApart(s, i, j, p, open);
    CutApart(s, i, j, q, close);
    var d := j - i;
    var p', q' := if p < i then p else p + d, if q < i then q else q + d;
    assert At(s, p', open) && At(s, q', close);
  }

  // ------------------------------------------------------------ all removals

  lemma FoundBlock(s: string, open: string, close: string)
    requires close != [] && Find(s, open).Some? && Find(s[Find(s, open).value..], close).Some?
    ensures var i := Find(s, open).value; var j := i + Find(s[i..], close).value + |close|;
      i < j <= |s| && At(s, i, open)
  {
    FindSpec(s, open);
    hide Find;
  }

  /** The pass of one listed tag keeps an unbroken text unbroken and makes no pair of any. */
  lemma {:induction false} PassMakesNoPair(s: string, tags: seq<string>, name: string, other: string)
    requires Unbroken(s, tags) && name in tags && other in tags
    ensures var r := StripTag(s, Open(name), Close(name));
      Unbroken(r, tags) && (HasPair(r, Open(other), Close(other)) ==> HasPair(s, Open(other), Close(other)))
    decreases |s|
  {
    var open, close := Open(name), Close(name);
    assert close != [];
    hide Open, Close, Unbroken, HasPair, Find, Cut, At;
    if Find(s, open).Some? && Find(s[Find(s, open).value..], close).Some? {
      FoundBlock(s, open, close);
      var i := Find(s, open).value;
      var rel := Find(s[i..], close).value;
      var j := i + rel + |close|;
      CutStaysUnbroken(s, i, j, tags, name);
      CutMakesNoPair(s, i, j, tags, name, other);
      PassMakesNoPair(Cut(s, i, j), tags, name, other);
    }
  }

  lemma {:induction false} PassesMakeNoPair(s: string, tags: seq<string>, passes: seq<string>, other: string)
    requires Unbroken(s, tags) && (forall t | t in passes :: t in tags) && other in tags
    ensures HasPair(StripTags(s, passes), Open(other), Close(other)) ==> HasPair(s, Open(other), Close(other))
    decreases |passes|
  {
    hide StripTag, HasPair, Unbroken, Open;
    if passes != [] {
      assert forall t | t in passes[1..] :: t in passes;
      PassMakesNoPair(s, tags, passes[0], other);
      PassesMakeNoPair(StripTag(s, Open(passes[0]), Close(passes[0])), tags, passes[1..], other);
    }
  }

  lemma {:induction false} LeavesTagFree(s: string, tags: seq<string>, passes: seq<string>)
    requires Unbroken(s, tags) && forall t | t in passes :: t in tags
    ensures TagFree(StripTags(s, passes), passes)
    decreases |passes|
  {
    hide StripTag, HasPair, Unbroken, Open;
    if passes != [] {
      var first := passes[0];
      var s' := StripTag(s, Open(first), Close(first));
      assert forall t | t in passes[1..] :: t in passes;
      PassMakesNoPair(s, tags, first, first);
      StripTagSpec(s, Open(first), Close(first));
      PassesMakeNoPair(s', tags, passes[1..], first);
      LeavesTagFree(s', tags, passes[1..]);
      assert passes == [first] + passes[1..];
    }
  }

  /** If no listed tag is broken off by a listed opening tag, one run removes every block of
      every tag, so a second run changes nothing. */
  lemma {:induction false} UnbrokenIsEnough(s: string, tags: seq<string>)
    requires Unbroken(s, tags)
    ensures TagFree(StripTags(s, tags), tags)
    ensures StripTags(StripTags(s, tags), tags) == StripTags(s, tags)
  {
    LeavesTagFree(s, tags, tags);
    hide StripTags, TagFree, Unbroken;
    StripTagsSpec(StripTags(s, tags), tags);
  }

  /** A text whose angle brackets are closed is unbroken. */
  lemma ClosedIsUnbroken(s: string, tags: seq<string>)
    requires Closed(s) && PlainTags(tags)
    ensures Unbroken(s, tags)
  {
    forall i: nat, t, m: nat, name | IsPiece(t, tags) && name in tags ensures !Breaks(s, i, t, m, Open(name)) {
      var own :| own in tags && (t == Open(own) || t == Close(own));
      TagsAreBrackets(own);
      TagsAreBrackets(name);
      hide IsPiece, Open, Close;
      ClosedDoesNotBreak(s, i, t, m, Open(name));
    }
  }

  lemma BreaksUnclosed(s: string, i: nat, t: string, m: nat, next: string)
    requires IsBracket(t) && IsBracket(next) && Breaks(s, i, t, m, next)
    ensures i < |s| && s[i - m] == '<' == s[i] && !ClosedBetween(s, i - m, i)
  {
    AtChar(s, i, next, 0);
    assert s[i - m..i][0] == t[0];
    forall k | i - m < k < i ensures s[k] != '>' {
      assert s[k] == s[i - m..i][k - (i - m)] == t[..m][k - (i - m)] == t[..|t| - 1][k - (i - m)];
    }
  }

  lemma ClosedDoesNotBreak(s: string, i: nat, t: string, m: nat, next: string)
    requires Closed(s) && IsBracket(t) && IsBracket(next)
    ensures !Breaks(s, i, t, m, next)
  {
    hide IsBracket, ClosedBetween;
    if Breaks(s, i, t, m, next) {
      BreaksUnclosed(s, i, t, m, next);
    }
  }

  /** So on a closed text one run is enough. */
  lemma {:induction false} ClosedIsEnough(s: string, tags: seq<string>)
    requires Closed(s) && PlainTags(tags)
    ensures TagFree(StripTags(s, tags), tags)
    ensures StripTags(StripTags(s, tags), tags) == StripTags(s, tags)
  {
    hide *;
    ClosedIsUnbroken(s, tags);
    UnbrokenIsEnough(s, tags);
  }

  lemma {:induction false} TrimmedPair(s: string, open: string, close: string)
    ensures HasPair(Trim(s), open, close) ==> HasPair(s, open, close)
  {
    var l, r := TrimSplit(s);
    var m := Trim(s);
    hide Trim;
    if p: nat, q: nat :| p <= q && At(m, p, open) && At(m, q, close) {
      AtLeft(m, r, p, open);
      AtLeft(m, r, q, close);
      assert s == l + (m + r);
      AtRight(l, m + r, |l| + p, open);
      AtRight(l, m + r, |l| + q, close);
      assert At(s, |l| + p, open) && At(s, |l| + q, close);
    }
  }

  /** `strip_system_tags` removes every block from an unbroken text, and doing it again changes
      nothing. */
  lemma UnbrokenTextsStripOnce(text: string)
    requires Unbroken(text, SYSTEM_TAGS)
    ensures TagFree(StripSystemTags(text), SYSTEM_TAGS)
    ensures StripSystemTags(StripSystemTags(text)) == StripSystemTags(text)
  {
    StripOnceWith(text, SYSTEM_TAGS);
  }

  /** In particular from a closed text. */
  lemma ClosedTextsStripOnce(text: string)
    requires Closed(text)
    ensures TagFree(StripSystemTags(text), SYSTEM_TAGS)
    ensures StripSystemTags(StripSystemTags(text)) == StripSystemTags(text)
  {
    hide *;
    SystemTagsArePlain();
    ClosedIsUnbroken(text, SYSTEM_TAGS);
    UnbrokenTextsStripOnce(text);
  }

  lemma StripOnceWith(text: string, tags: seq<string>)
    requires Unbroken(text, tags)
    ensures var once := Trim(StripTags(text, tags));
      TagFree(once, tags) && Trim(StripTags(once, tags)) == once
  {
    UnbrokenIsEnough(text, tags);
    var r := StripTags(text, tags);
    hide HasPair, Trim, StripTags, Unbroken, Open, Close;
    forall t | t in tags ensures !HasPair(Trim(r), Open(t), Close(t)) {
      TrimmedPair(r, Open(t), Close(t));
    }
    StripTagsSpec(Trim(r), tags);
    TrimSpec(r);
    TrimTrimmed(Trim(r));
  }

  // ------------------------------------------------------------ texts with one block

  /** Removing `i..j` completes a pair: one of its tags stands across the joint, the other one
      on the proper side of it. */
  ghost predicate Completes(s: string, i: nat, j: nat, open: string, close: string)
    requires i <= j <= |s|
  {
    || (exists p: nat, q: nat | j <= q :: Spans(s, i, j, p, open) && At(s, q, close))
    || (exists p: nat, q: nat | p < q :: At(s, p, open) && Spans(s, i, j, q, close))
  }

  lemma BracketsApart(s: string, p: nat, t: string, q: nat)
    requires IsBracket(t) && At(s, p, t) && p < q < |s| && s[q] == '<'
    ensures p + |t| <= q
  {
    if q < p + |t| {
      AtChar(s, p, t, q - p);
    }
  }

  lemma BracketStarts(s: string, p: nat, t: string)
    requires IsBracket(t) && At(s, p, t)
    ensures p + 1 < |s| && s[p] == '<' && s[p + 1] == t[1]
  {
    AtChar(s, p, t, 0);
    AtChar(s, p, t, 1);
  }

  lemma CompletedPair(s: string, i: nat, j: nat, open: string, close: string)
    requires i < j <= |s| && IsBracket(open) && IsBracket(close) && Completes(s, i, j, open, close)
    ensures HasPair(Cut(s, i, j), open, close)
  {
    var c, d := Cut(s, i, j), j - i;
    hide Cut, At;
    if p: nat, q: nat :| j <= q && Spans(s, i, j, p, open) && At(s, q, close) {
      CutApart(s, i, j, q - d, close);
      assert At(c, p, open) && At(c, q - d, close);
    } else {
      var p: nat, q: nat :| p < q && At(s, p, open) && Spans(s, i, j, q, close);
      BracketStarts(c, q, close);
      CutAt(s, i, j, q);
      assert q < |s|;
      BracketsApart(s, p, open, q);
      CutApart(s, i, j, p, open);
      assert At(c, p, open) && At(c, q, close);
    }
  }

  /** What removing a stretch does to a text without a pair. */
  lemma CutPairIff(s: string, i: nat, j: nat, open: string, close: string)
    requires i < j <= |s| && IsBracket(open) && IsBracket(close) && open[1] != close[1]
    requires !HasPair(s, open, close)
    ensures HasPair(Cut(s, i, j), open, close) <==> Completes(s, i, j, open, close)
  {
    var c, d := Cut(s, i, j), j - i;
    if Completes(s, i, j, open, close) {
      CompletedPair(s, i, j, open, close);
    }
    hide Cut, At;
    if p: nat, q: nat :| p <= q && At(c, p, open) && At(c, q, close) {
      BracketStarts(c, p, open);
      BracketStarts(c, q, close);
      BracketsApart(c, p, open, q);
      CutApart(s, i, j, p, open);
      CutApart(s, i, j, q, close);
      if p < i < p + |open| {
        assert Spans(s, i, j, p, open) && At(s, q + d, close);
      } else if q < i < q + |close| {
        assert At(s, p, open) && Spans(s, i, j, q, close);
      } else {
        PairApart(s, i, j, p, q, open, close);
      }
    }
  }

  /** A single block of `tags[k]` from `i` to `j`, and no block of any other tag. */
  ghost predicate OneBlock(s: string, tags: seq<string>, k: nat, i: nat, j: nat) {
    && k < |tags| && tags[k] !in tags[..k] && i < j <= |s|
    && (forall t | t in tags && t != tags[k] :: !HasPair(s, Open(t), Close(t)))
    && Find(s, Open(tags[k])) == Some(i)
    && Find(s[i..], Close(tags[k])).Some? && j == i + Find(s[i..], Close(tags[k])).value + |Close(tags[k])|
    && (forall t | t in tags[k..] :: !HasPair(Cut(s, i, j), Open(t), Close(t)))
  }

  lemma OneBlockCut(s: string, tags: seq<string>, k: nat, i: nat, j: nat)
    requires OneBlock(s, tags, k, i, j)
    ensures StripTags(s, tags) == Cut(s, i, j)
  {
    var once, tag := Cut(s, i, j), tags[k];
    SplitTags(tags, k);
    hide HasPair, Find, Cut, Open, Close;
    assert TagFree(s, tags[..k]) by {
      forall t | t in tags[..k] ensures !HasPair(s, Open(t), Close(t)) {
        assert t in tags && t != tag;
      }
    }
    assert TagFree(once, tags[k..]);
    hide TagFree;
    StripTagsSpec(s, tags[..k]);
    FirstPass(s, tags[k..], i, j);
    hide OneBlock;
    StripTagsSpec(once, tags[k..]);
    StripTagsConcat(s, tags[..k], tags[k..]);
  }

  /** The passes from the block's tag on do the same before and after the block is removed. */
  lemma FirstPass(s: string, tags: seq<string>, i: nat, j: nat)
    requires tags != [] && i <= j <= |s| && Find(s, Open(tags[0])) == Some(i)
    requires Find(s[i..], Close(tags[0])).Some?
    requires j == i + Find(s[i..], Close(tags[0])).value + |Close(tags[0])|
    ensures StripTags(s, tags) == StripTags(Cut(s, i, j), tags)
  {
    hide Find, Cut, Open;
    StripTagStep(s, Open(tags[0]), Close(tags[0]), i, Find(s[i..], Close(tags[0])).value);
    hide StripTag;
  }

  /** On such a text a second run changes nothing iff the removed block's joint completes no
      pair of any tag. */
  lemma OneBlockIff(s: string, tags: seq<string>, k: nat, i: nat, j: nat)
    requires PlainTags(tags) && OneBlock(s, tags, k, i, j)
    ensures var once := StripTags(s, tags);
      StripTags(once, tags) == once <==> forall t | t in tags :: !Completes(s, i, j, Open(t), Close(t))
  {
    OneBlockCut(s, tags, k, i, j);
    var once := Cut(s, i, j);
    StripTagsSpec(once, tags);
    forall t | t in tags
      ensures HasPair(once, Open(t), Close(t)) <==> Completes(s, i, j, Open(t), Close(t))
    {
      assert PlainName(t);
      TagsAreBrackets(t);
      hide Cut, HasPair, Completes, Open, Close, IsBracket, Find;
      if t == tags[k] {
        assert t in tags[k..] by { assert tags[k..][0] == t; }
        if Completes(s, i, j, Open(t), Close(t)) {
          CompletedPair(s, i, j, Open(t), Close(t));
        }
      } else {
        CutPairIff(s, i, j, Open(t), Close(t));
      }
    }
    hide StripTags, Cut, HasPair, Completes, Open, Close, OneBlock;
  }
}
