/** The string operations the Rust code calls (`find`, `rfind`, `contains`, `trim`,
    `replace`), on sequences of Unicode scalar values, with the facts about them that
    the rewriting passes rely on. */
module Text {
  import opened Wrappers

  // ---------------------------------------------------------------- occurrences

  predicate At(s: string, p: nat, t: string) {
    p + |t| <= |s| && forall k | 0 <= k < |t| :: s[p + k] == t[k]
  }

  predicate Contains(s: string, t: string) {
    exists p | 0 <= p <= |s| :: At(s, p, t)
  }

  /** `str::find`: the first occurrence. */
  function Find(s: string, t: string): (r: Option<nat>)
    ensures r.Some? ==> r.value + |t| <= |s|
  {
    FindFrom(s, t, 0)
  }

  function FindFrom(s: string, t: string, i: nat): (r: Option<nat>)
    requires i <= |s|
    ensures r.Some? ==> r.value + |t| <= |s|
    decreases |s| - i
  {
    if At(s, i, t) then Some(i)
    else if i == |s| then None
    else FindFrom(s, t, i + 1)
  }

  /** `str::rfind`: the last occurrence. */
  function RFind(s: string, t: string): (r: Option<nat>)
    ensures r.Some? ==> r.value + |t| <= |s|
  {
    RFindTo(s, t, |s|)
  }

  function RFindTo(s: string, t: string, i: nat): (r: Option<nat>)
    requires i <= |s|
    ensures r.Some? ==> r.value + |t| <= |s|
  {
    if At(s, i, t) then Some(i)
    else if i == 0 then None
    else RFindTo(s, t, i - 1)
  }

  lemma FindSpec(s: string, t: string)
    ensures var r := Find(s, t);
      && (r.None? <==> !Contains(s, t))
      && (r.Some? ==> At(s, r.value, t) && forall q: nat | q < r.value :: !At(s, q, t))
  {
    FindFromSpec(s, t, 0);
  }

  lemma {:induction false} FindFromSpec(s: string, t: string, i: nat)
    requires i <= |s|
    ensures var r := FindFrom(s, t, i);
      && (r.Some? ==> i <= r.value && At(s, r.value, t) && forall q: nat | i <= q < r.value :: !At(s, q, t))
      && (r.None? ==> forall q: nat | i <= q :: !At(s, q, t))
    decreases |s| - i
  {
    if !At(s, i, t) && i < |s| {
      FindFromSpec(s, t, i + 1);
    }
  }

  lemma RFindSpec(s: string, t: string)
    ensures var r := RFind(s, t);
      && (r.None? <==> !Contains(s, t))
      && (r.Some? ==> At(s, r.value, t) && forall q: nat | r.value < q :: !At(s, q, t))
  {
    RFindToSpec(s, t, |s|);
  }

  lemma {:induction false} RFindToSpec(s: string, t: string, i: nat)
    requires i <= |s|
    ensures var r := RFindTo(s, t, i);
      && (r.Some? ==> r.value <= i && At(s, r.value, t) && forall q: nat | r.value < q <= i :: !At(s, q, t))
      && (r.None? ==> forall q: nat | q <= i :: !At(s, q, t))
  {
    if !At(s, i, t) && 0 < i {
      RFindToSpec(s, t, i - 1);
    }
  }

  lemma FindIs(s: string, t: string, p: nat)
    requires At(s, p, t)
    requires forall q: nat | q < p :: !At(s, q, t)
    ensures Find(s, t) == Some(p)
  {
    FindSpec(s, t);
    hide Find;
  }

  lemma RFindIs(s: string, t: string, p: nat)
    requires At(s, p, t)
    requires forall q: nat | p < q :: !At(s, q, t)
    ensures RFind(s, t) == Some(p)
  {
    RFindSpec(s, t);
    hide RFind;
  }

  // An occurrence in a concatenation that lies in one of the parts.
  lemma AtLeft(a: string, b: string, p: nat, t: string)
    requires p + |t| <= |a|
    ensures At(a + b, p, t) <==> At(a, p, t)
  {
  }

  lemma AtRight(a: string, b: string, p: nat, t: string)
    requires |a| <= p
    ensures At(a + b, p, t) <==> At(b, p - |a|, t)
  {
    if At(a + b, p, t) {
      forall k | 0 <= k < |t| ensures b[p - |a| + k] == t[k] {
        assert (a + b)[p + k] == t[k];
      }
    }
  }

  lemma AtChar(s: string, p: nat, t: string, k: nat)
    requires At(s, p, t) && k < |t|
    ensures s[p + k] == t[k]
  {
  }

  lemma AtSplits(s: string, i: nat, t: string)
    requires At(s, i, t)
    ensures s == s[..i] + t + s[i + |t|..]
  {
  }

  lemma AtSlice(s: string, i: nat, j: nat, p: nat, t: string)
    requires i <= j <= |s|
    ensures At(s[i..j], p, t) ==> At(s, i + p, t)
  {
    if At(s[i..j], p, t) {
      forall k | 0 <= k < |t| ensures s[i + p + k] == t[k] {
        assert s[i..j][p + k] == t[k];
      }
    }
  }

  lemma ContainsSlice(s: string, i: nat, j: nat, t: string)
    requires i <= j <= |s|
    ensures Contains(s[i..j], t) ==> Contains(s, t)
  {
    if p: nat :| p <= |s[i..j]| && At(s[i..j], p, t) {
      AtSlice(s, i, j, p, t);
    }
  }

  // ---------------------------------------------------------------- tags

  /** A tag's first character occurs nowhere else in it, so two occurrences of tags that
      open with the same character never overlap partially. */
  ghost predicate IsTag(t: string) {
    2 <= |t| && t[0] == '<' && forall k | 1 <= k < |t| :: t[k] != '<'
  }

  ghost predicate Lacks(s: string, c: char) {
    forall i | 0 <= i < |s| :: s[i] != c
  }

  /** Splitting a text just before a '<' (or at its end) splits its tags. */
  lemma SplitAtOpen(a: string, b: string, t: string)
    requires IsTag(t)
    requires b == [] || b[0] == '<'
    ensures Contains(a + b, t) <==> Contains(a, t) || Contains(b, t)
  {
    if p: nat :| p <= |a + b| && At(a + b, p, t) {
      if p < |a| < p + |t| {
        AtChar(a + b, p, t, |a| - p);
        assert false;
      } else if p >= |a| {
        AtRight(a, b, p, t);
      } else {
        AtLeft(a, b, p, t);
      }
    }
    ContainsParts(a, b, t);
  }

  /** A prefix without '<' adds no tag. */
  lemma SplitAfterPlain(a: string, b: string, t: string)
    requires IsTag(t)
    requires Lacks(a, '<')
    ensures Contains(a + b, t) <==> Contains(b, t)
  {
    if p: nat :| p <= |a + b| && At(a + b, p, t) {
      AtChar(a + b, p, t, 0);
      assert (a + b)[p] == '<';
      assert p >= |a|;
      AtRight(a, b, p, t);
    }
    ContainsParts(a, b, t);
  }

  lemma ContainsParts(a: string, b: string, t: string)
    ensures Contains(a, t) || Contains(b, t) ==> Contains(a + b, t)
  {
    if p: nat :| p <= |a| && At(a, p, t) {
      AtLeft(a, b, p, t);
      assert At(a + b, p, t);
    }
    if p: nat :| p <= |b| && At(b, p, t) {
      AtRight(a, b, |a| + p, t);
      assert At(a + b, |a| + p, t);
    }
  }

  /** A tag written right after text that does not contain it is the first one. */
  lemma FindAfter(a: string, t: string, rest: string)
    requires IsTag(t)
    requires !Contains(a, t)
    ensures Find(a + t + rest, t) == Some(|a|)
  {
    var s := a + t + rest;
    forall q: nat | q < |a| ensures !At(s, q, t) {
      if At(s, q, t) {
        if q + |t| <= |a| {
          assert s == a + (t + rest);
          AtLeft(a, t + rest, q, t);
          assert Contains(a, t);
        } else {
          assert s[|a|] == t[0];
          AtChar(s, q, t, |a| - q);
          assert false;
        }
      }
    }
    FindIs(s, t, |a|);
  }

  /** A tag written right before text that does not contain it is the last one. */
  lemma RFindBefore(a: string, t: string, rest: string)
    requires IsTag(t)
    requires !Contains(rest, t)
    ensures RFind(a + t + rest, t) == Some(|a|)
  {
    var s := a + t + rest;
    forall q: nat | |a| < q ensures !At(s, q, t) {
      if At(s, q, t) {
        AtChar(s, q, t, 0);
        if q < |a| + |t| {
          assert false;
        } else {
          AtRight(a + t, rest, q, t);
          assert Contains(rest, t);
        }
      }
    }
    RFindIs(s, t, |a|);
  }

  // ---------------------------------------------------------------- trim

  /** Unicode `White_Space`. The zero-width space U+200B is not in it. */
  predicate IsSpace(c: char) {
    || '\t' <= c <= '\r' || c == ' ' || c == '\U{0085}' || c == '\U{00A0}' || c == '\U{1680}'
    || '\U{2000}' <= c <= '\U{200A}' || c == '\U{2028}' || c == '\U{2029}' || c == '\U{202F}'
    || c == '\U{205F}' || c == '\U{3000}'
  }

  predicate Blank(s: string) {
    forall i | 0 <= i < |s| :: IsSpace(s[i])
  }

  predicate Trimmed(s: string) {
    s == [] || (!IsSpace(s[0]) && !IsSpace(s[|s| - 1]))
  }

  function TrimStart(s: string): string {
    if s != [] && IsSpace(s[0]) then TrimStart(s[1..]) else s
  }

  function TrimEnd(s: string): string {
    if s != [] && IsSpace(s[|s| - 1]) then TrimEnd(s[..|s| - 1]) else s
  }

  /** `str::trim`. */
  function Trim(s: string): string {
    TrimEnd(TrimStart(s))
  }

  lemma {:induction false} TrimStartSpec(s: string)
    ensures var r := TrimStart(s);
      && |r| <= |s| && r == s[|s| - |r|..] && (forall i | 0 <= i < |s| - |r| :: IsSpace(s[i]))
      && (r == [] || !IsSpace(r[0]))
  {
    hide IsSpace;
    if s != [] && IsSpace(s[0]) {
      TrimStartSpec(s[1..]);
    }
  }

  lemma {:induction false} TrimEndSpec(s: string)
    ensures var r := TrimEnd(s);
      && |r| <= |s| && r == s[..|r|] && (forall i | |r| <= i < |s| :: IsSpace(s[i]))
      && (r == [] || !IsSpace(r[|r| - 1]))
  {
    hide IsSpace;
    if s != [] && IsSpace(s[|s| - 1]) {
      TrimEndSpec(s[..|s| - 1]);
    }
  }

  /** The result of `Trim` has no whitespace at its ends, and nothing else was cut off. */
  lemma TrimSpec(s: string)
    ensures Trimmed(Trim(s)) && (Trim(s) == [] <==> Blank(s))
  {
    hide IsSpace;
    var a := TrimStart(s);
    var r := TrimEnd(a);
    TrimStartSpec(s);
    TrimEndSpec(a);
    hide TrimStart, TrimEnd;
    if r != [] {
      assert s[|s| - |a|] == a[0];
    }
  }

  /** What `Trim` cuts off, on both sides. */
  lemma TrimSplit(s: string) returns (l: string, r: string)
    ensures s == l + Trim(s) + r && Blank(l) && Blank(r)
  {
    hide IsSpace, Blank;
    var a := TrimStart(s);
    var m := TrimEnd(a);
    TrimStartSpec(s);
    TrimEndSpec(a);
    l, r := s[..|s| - |a|], a[|m|..];
    BlankSlice(s, 0, |s| - |a|);
    BlankSlice(a, |m|, |a|);
    SplitTwice(s, |l|, a, |m|);
    hide TrimStart, TrimEnd;
  }

  lemma BlankSlice(s: string, i: nat, j: nat)
    requires i <= j <= |s| && forall k | i <= k < j :: IsSpace(s[k])
    ensures Blank(s[i..j]) && (j == |s| ==> Blank(s[i..])) && (i == 0 ==> Blank(s[..j]))
  {
    hide IsSpace;
  }

  lemma SplitTwice(s: string, i: nat, a: string, m: nat)
    requires i <= |s| && a == s[i..] && m <= |a|
    ensures s == s[..i] + a[..m] + a[m..]
  {
  }

  lemma TrimContains(s: string, t: string)
    ensures Contains(Trim(s), t) ==> Contains(s, t)
  {
    var l, r := TrimSplit(s);
    ContainsParts(l, Trim(s), t);
    ContainsParts(l + Trim(s), r, t);
  }

  lemma BlankParts(a: string, b: string)
    ensures Blank(a + b) <==> Blank(a) && Blank(b)
  {
    if Blank(a + b) {
      forall i | 0 <= i < |a| ensures IsSpace(a[i]) {
        assert IsSpace((a + b)[i]);
      }
      forall i | 0 <= i < |b| ensures IsSpace(b[i]) {
        assert IsSpace((a + b)[|a| + i]);
      }
    }
  }

  lemma TrimStartDone(s: string)
    requires s == [] || !IsSpace(s[0])
    ensures TrimStart(s) == s
  {
  }

  /** Trimming finds the core of a text padded with whitespace. */
  lemma TrimPadded(l: string, s: string, r: string)
    requires Blank(l) && Blank(r)
    ensures Trim(l + s + r) == Trim(s)
  {
    TrimSpec(s);
    var l', r' := TrimSplit(s);
    BlankParts(l, l');
    BlankParts(r', r);
    Reassociate(l, l', Trim(s), r', r);
    TrimIs(l + l', Trim(s), r' + r);
  }

  lemma Reassociate(a: string, b: string, c: string, d: string, e: string)
    ensures a + (b + c + d) + e == (a + b) + c + (d + e)
  {
  }

  lemma TrimIs(l: string, m: string, r: string)
    requires Blank(l) && Blank(r) && Trimmed(m)
    ensures Trim(l + m + r) == m
  {
    TrimSpec(l + m + r);
    assert l + m + r == l + (m + r);
    if m == [] {
      BlankParts(l, r);
      assert l + m + r == l + r;
    } else {
      TrimStartPadded(l, m + r);
      TrimStartDone(m + r);
      TrimEndPadded(m, r);
    }
  }

  lemma TrimTrimmed(s: string)
    requires Trimmed(s)
    ensures Trim(s) == s
  {
    assert "" + s + "" == s;
    hide Trim, Trimmed, IsSpace;
    TrimIs("", s, "");
  }

  lemma {:induction false} TrimStartPadded(l: string, s: string)
    requires Blank(l)
    ensures TrimStart(l + s) == TrimStart(s)
  {
    if l == [] {
      assert l + s == s;
    } else {
      assert (l + s)[1..] == l[1..] + s;
      assert l[0] in l;
      TrimStartPadded(l[1..], s);
    }
  }

  lemma {:induction false} TrimEndPadded(s: string, r: string)
    requires Blank(r) && (s == [] || !IsSpace(s[|s| - 1]))
    ensures TrimEnd(s + r) == s
  {
    if r == [] {
      assert s + r == s;
    } else {
      assert (s + r)[..|s + r| - 1] == s + r[..|r| - 1];
      assert r[|r| - 1] in r;
      TrimEndPadded(s, r[..|r| - 1]);
    }
  }

  /** `String::replace_range(i..j, "")`: the text without its characters from `i` to `j`. */
  function Cut(s: string, i: nat, j: nat): (r: string)
    requires i <= j <= |s|
    ensures |r| == |s| - (j - i)
  {
    s[..i] + s[j..]
  }

  // ---------------------------------------------------------------- replace

  /** `str::replace`: every non-overlapping occurrence, left to right. */
  function Replace(s: string, from: string, to: string): (r: string)
    requires from != []
    decreases |s|
  {
    match Find(s, from)
    case None => s
    case Some(i) => Spliced(s, i, to, Replace(s[i + |from|..], from, to))
  }

  function Spliced(s: string, i: nat, to: string, rest: string): (r: string)
    requires i <= |s|
    ensures |r| == i + |to| + |rest|
  {
    s[..i] + to + rest
  }

  lemma ReplaceFirst(s: string, from: string, to: string, i: nat)
    requires from != [] && Find(s, from) == Some(i)
    ensures i + |from| <= |s|
    ensures Replace(s, from, to) == Spliced(s, i, to, Replace(s[i + |from|..], from, to))
  {
    FindSpec(s, from);
    assert i + |from| <= |s|;
    hide Find, FindFrom, At, Contains, Spliced;
  }

  lemma ReplaceAbsent(s: string, from: string, to: string)
    requires from != [] && !Contains(s, from)
    ensures Replace(s, from, to) == s
  {
    FindSpec(s, from);
  }

  /** Replacing creates no new occurrence of a tag `t` when the replacement starts like the
      text it replaces up to a character that `t` lacks, and has no '<' from there on. */
  lemma {:induction false} ReplaceMakesNoTag(s: string, from: string, to: string, m: nat, t: string)
    requires IsTag(t) && m < |to| && m <= |from| && 0 < |from|
    requires to[..m] == from[..m] && Lacks(t, to[m]) && Lacks(to[m..], '<')
    ensures Contains(Replace(s, from, to), t) ==> Contains(s, t)
    decreases |s|
  {
    FindSpec(s, from);
    hide Replace, Lacks, IsTag, Contains;
    match Find(s, from)
    case None =>
      ReplaceAbsent(s, from, to);
    case Some(i) =>
      var rest := s[i + |from|..];
      ReplaceMakesNoTag(rest, from, to, m, t);
      ReplaceFirst(s, from, to, i);
      SpliceMakesNoTag(s, i, from, to, m, Replace(rest, from, to), t);
  }

  lemma SpliceMakesNoTag(s: string, i: nat, from: string, to: string, m: nat, r: string, t: string)
    requires IsTag(t) && m < |to| && m <= |from| && At(s, i, from)
    requires to[..m] == from[..m] && Lacks(t, to[m]) && Lacks(to[m..], '<')
    requires Contains(r, t) ==> Contains(s[i + |from|..], t)
    ensures Contains(Spliced(s, i, to, r), t) ==> Contains(s, t)
  {
    assert i + m <= |s| && i + |from| <= |s|;
    StartsLike(s, from, to, i, m);
    hide At, Contains, IsTag;
    BrokenAcross(s[..i + m], to[m..], r, t);
    ContainsPrefix(s, i + m, t);
    ContainsSuffix(s, i + |from|, t);
  }

  lemma ContainsPrefix(s: string, j: nat, t: string)
    requires j <= |s|
    ensures Contains(s[..j], t) ==> Contains(s, t)
  {
    hide Contains;
    assert s[0..j] == s[..j];
    ContainsSlice(s, 0, j, t);
  }

  lemma ContainsSuffix(s: string, i: nat, t: string)
    requires i <= |s|
    ensures Contains(s[i..], t) ==> Contains(s, t)
  {
    hide Contains;
    assert s[i..|s|] == s[i..];
    ContainsSlice(s, i, |s|, t);
  }

  lemma StartsLike(s: string, from: string, to: string, i: nat, m: nat)
    requires At(s, i, from) && m <= |to| && m <= |from| && to[..m] == from[..m]
    ensures s[..i] + to == s[..i + m] + to[m..]
  {
    assert to == to[..m] + to[m..];
    assert s[i..i + m] == from[..m];
    assert s[..i + m] == s[..i] + s[i..i + m];
  }

  /** No tag spans a middle part that starts with a character foreign to it and has no '<'. */
  lemma BrokenAcross(a: string, mid: string, b: string, t: string)
    requires IsTag(t) && mid != [] && Lacks(t, mid[0]) && Lacks(mid, '<')
    ensures Contains(a + mid + b, t) ==> Contains(a, t) || Contains(b, t)
  {
    if p: nat :| p <= |a + mid + b| && At(a + mid + b, p, t) {
      assert a + mid + b == a + (mid + b);
      if p + |t| <= |a| {
        AtLeft(a, mid + b, p, t);
      } else if p <= |a| {
        AtChar(a + mid + b, p, t, |a| - p);
        assert false;
      } else {
        AtRight(a, mid + b, p, t);
        assert Contains(mid + b, t);
        SplitAfterPlain(mid, b, t);
      }
    }
  }

  /** Replacing a tag by a text that breaks it up after its first character removes it. */
  lemma {:induction false} ReplaceRemovesTag(s: string, from: string, to: string)
    requires IsTag(from) && 2 <= |to| && to[0] == '<' && Lacks(from, to[1]) && Lacks(to[1..], '<')
    ensures !Contains(Replace(s, from, to), from)
    decreases |s|
  {
    FindSpec(s, from);
    assert |from| > 0;
    hide Replace, Lacks, IsTag;
    match Find(s, from)
    case None =>
      ReplaceAbsent(s, from, to);
    case Some(i) =>
      ReplaceRemovesTag(s[i + |from|..], from, to);
      ReplaceFirst(s, from, to, i);
      BeforeFirst(s, from, i);
      BreakUp(s[..i], to, Replace(s[i + |from|..], from, to), from);
  }

  lemma BreakUp(a: string, to: string, b: string, t: string)
    requires IsTag(t) && 2 <= |to| && to[0] == '<' && Lacks(t, to[1]) && Lacks(to[1..], '<')
    requires !Contains(a, t) && !Contains(b, t)
    ensures !Contains(a + to + b, t)
  {
    assert to == to[..1] + to[1..];
    assert a + to + b == (a + to[..1]) + to[1..] + b;
    SplitAtOpen(a, to[..1], t);
    BrokenAcross(a + to[..1], to[1..], b, t);
  }

  lemma BeforeFirst(s: string, t: string, i: nat)
    requires i <= |s| && 0 < |t| && forall q: nat | q < i :: !At(s, q, t)
    ensures !Contains(s[..i], t)
  {
    if p: nat :| p <= |s[..i]| && At(s[..i], p, t) {
      AtSlice(s, 0, i, p, t);
      assert false;
    }
  }
}
