/** UTF-8 (section 3 of RFC 3629): byte lengths, character boundaries, byte-bounded prefixes. */
module Utf8 {

  type Byte = b: int | 0 <= b < 256

  function EncodeChar(c: char): seq<Byte> {
    var v := c as int;
    if v < 0x80 then [v]
    else if v < 0x800 then [0xC0 + v / 64, 0x80 + v % 64]
    else if v < 0x1_0000 then [0xE0 + v / 4096, 0x80 + v / 64 % 64, 0x80 + v % 64]
    else [0xF0 + v / 262144, 0x80 + v / 4096 % 64, 0x80 + v / 64 % 64, 0x80 + v % 64]
  }

  function Encode(s: string): seq<Byte> {
    if s == [] then [] else EncodeChar(s[0]) + Encode(s[1..])
  }

  /** `str::len`: the length in bytes. */
  function Len(s: string): nat {
    |Encode(s)|
  }

  predicate IsContinuation(b: Byte) {
    0x80 <= b < 0xC0
  }

  /** `str::is_char_boundary`: decided by the byte at the position alone. */
  predicate IsCharBoundary(bytes: seq<Byte>, i: nat) {
    i == 0 || (if i >= |bytes| then i == |bytes| else !IsContinuation(bytes[i]))
  }

  lemma SixBitDigits(v: nat)
    ensures v == 64 * (v / 64) + v % 64
    ensures v / 64 == 64 * (v / 4096) + v / 64 % 64
    ensures v / 4096 == 64 * (v / 262144) + v / 4096 % 64
  {
    assert v / 64 / 64 == v / 4096;
    assert v / 4096 / 64 == v / 262144;
  }

  /** The number that some bytes hold: the bits of the lead byte above `lead`, then six bits of
      every other byte. */
  function Held(e: seq<Byte>, lead: int): int
    requires e != []
  {
    if |e| == 1 then e[0] as int - lead
    else 64 * Held(e[..|e| - 1], lead) + (e[|e| - 1] as int - 0x80)
  }

  /** Section 3 of RFC 3629: the lead byte says how many bytes follow, the bytes hold the bits of
      the character in order, and no shorter form would do. */
  lemma EncodeCharBits(c: char)
    ensures var e, v := EncodeChar(c), c as int;
      && (v < 0x80 ==> |e| == 1 && Held(e, 0) == v)
      && (0x80 <= v < 0x800 ==> |e| == 2 && 0xC2 <= e[0] < 0xE0 && Held(e, 0xC0) == v)
      && (0x800 <= v < 0x1_0000 ==> |e| == 3 && 0xE0 <= e[0] < 0xF0 && Held(e, 0xE0) == v)
      && (0x1_0000 <= v ==> |e| == 4 && 0xF0 <= e[0] < 0xF5 && Held(e, 0xF0) == v)
  {
    var e, v := EncodeChar(c), c as int;
    SixBitDigits(v);
    if |e| == 2 {
      HeldTwo(e, 0xC0);
    } else if |e| == 3 {
      HeldThree(e, 0xE0);
    } else if |e| == 4 {
      HeldThree(e[..3], 0xF0);
    }
    hide Held;
    if |e| == 4 {
      HeldLast(e, 0xF0);
    }
  }

  lemma HeldLast(e: seq<Byte>, lead: int)
    requires |e| >= 2
    ensures Held(e, lead) == 64 * Held(e[..|e| - 1], lead) + (e[|e| - 1] as int - 0x80)
  {
  }

  lemma HeldTwo(e: seq<Byte>, lead: int)
    requires |e| == 2
    ensures Held(e, lead) == 64 * (e[0] as int - lead) + (e[1] as int - 0x80)
  {
  }

  lemma HeldThree(e: seq<Byte>, lead: int)
    requires |e| == 3
    ensures Held(e, lead) == 4096 * (e[0] as int - lead) + 64 * (e[1] as int - 0x80) + (e[2] as int - 0x80)
  {
    HeldTwo(e[..2], lead);
  }

  lemma EncodeCharShape(c: char)
    ensures var e := EncodeChar(c);
      1 <= |e| <= 4 && !IsContinuation(e[0]) && forall k | 1 <= k < |e| :: IsContinuation(e[k])
  {
  }

  lemma {:induction false} EncodeConcat(a: string, b: string)
    ensures Encode(a + b) == Encode(a) + Encode(b)
  {
    hide EncodeChar;
    if a == [] {
      assert a + b == b;
    } else {
      assert (a + b)[1..] == a[1..] + b;
      EncodeConcat(a[1..], b);
    }
  }

  lemma LenConcat(a: string, b: string)
    ensures Len(a + b) == Len(a) + Len(b)
  {
    EncodeConcat(a, b);
  }

  lemma {:induction false} AsciiLen(s: string)
    requires forall i | 0 <= i < |s| :: s[i] as int < 0x80
    ensures Len(s) == |s|
  {
    if s != [] {
      AsciiLen(s[1..]);
    }
  }

  /** The longest prefix of `s` that takes at most `n` bytes. */
  function Prefix(s: string, n: nat): string {
    if s == [] || |EncodeChar(s[0])| > n then []
    else [s[0]] + Prefix(s[1..], n - |EncodeChar(s[0])|)
  }

  lemma {:induction false} PrefixSpec(s: string, n: nat)
    ensures var p := Prefix(s, n); |p| <= |s| && p == s[..|p|] && Len(p) <= n
    ensures Encode(Prefix(s, n)) <= Encode(s)
    ensures n >= Len(s) ==> Prefix(s, n) == s
  {
    hide EncodeChar;
    if s != [] && |EncodeChar(s[0])| <= n {
      PrefixSpec(s[1..], n - |EncodeChar(s[0])|);
      var p := Prefix(s[1..], n - |EncodeChar(s[0])|);
      assert ([s[0]] + p)[1..] == p;
      assert s == [s[0]] + s[1..];
    }
  }

  /** No longer prefix fits. */
  lemma {:induction false} PrefixIsLongest(s: string, n: nat, k: nat)
    requires k <= |s| && Len(s[..k]) <= n
    ensures k <= |Prefix(s, n)|
  {
    hide EncodeChar;
    if k > 0 {
      assert s[..k][0] == s[0] && s[..k][1..] == s[1..][..k - 1];
      PrefixIsLongest(s[1..], n - |EncodeChar(s[0])|, k - 1);
    }
  }

  /** Shifting a position by one character. */
  lemma BoundaryShift(s: string, i: nat)
    requires s != []
    ensures var w := |EncodeChar(s[0])|;
      IsCharBoundary(Encode(s), i) <==> i == 0 || (i >= w && IsCharBoundary(Encode(s[1..]), i - w))
  {
    EncodeCharShape(s[0]);
    FirstByte(s[1..]);
    var e, rest := EncodeChar(s[0]), Encode(s[1..]);
    hide EncodeChar, IsContinuation;
    assert Encode(s) == e + rest;
    if |e| <= i < |e + rest| {
      assert (e + rest)[i] == rest[i - |e|];
    }
  }

  lemma FirstByte(s: string)
    ensures s != [] ==> |Encode(s)| > 0 && !IsContinuation(Encode(s)[0])
    ensures |Encode(s)| == 0 ==> s == []
  {
    if s != [] {
      EncodeCharShape(s[0]);
    }
  }

  /** The byte test finds exactly the positions between characters. */
  lemma {:induction false} BoundaryIs(s: string, i: nat)
    ensures IsCharBoundary(Encode(s), i) <==> exists k | 0 <= k <= |s| :: Len(s[..k]) == i
  {
    if s == [] {
      assert Len(s[..0]) == 0;
    } else {
      var w := |EncodeChar(s[0])|;
      BoundaryShift(s, i);
      forall k | 1 <= k <= |s| ensures Len(s[..k]) == w + Len(s[1..][..k - 1]) {
        assert s[..k][0] == s[0] && s[..k][1..] == s[1..][..k - 1];
      }
      assert Len(s[..0]) == 0;
      if i >= w {
        BoundaryIs(s[1..], i - w);
        if k :| 0 <= k <= |s[1..]| && Len(s[1..][..k]) == i - w {
          assert Len(s[..k + 1]) == i;
        }
      }
      if k :| 0 <= k <= |s| && Len(s[..k]) == i {
        assert k > 0 ==> Len(s[1..][..k - 1]) == i - w;
      }
    }
  }

  /** The byte length of the longest fitting prefix is the last boundary up to `n`. */
  lemma {:induction false} PrefixIsLastBoundary(s: string, n: nat)
    ensures var e := Len(Prefix(s, n));
      && e <= n && e <= Len(s) && IsCharBoundary(Encode(s), e)
      && forall i | e < i <= n && i <= Len(s) :: !IsCharBoundary(Encode(s), i)
  {
    if s != [] {
      var w := |EncodeChar(s[0])|;
      EncodeCharShape(s[0]);
      hide EncodeChar, IsCharBoundary;
      if w <= n {
        var p := Prefix(s[1..], n - w);
        PrefixIsLastBoundary(s[1..], n - w);
        assert ([s[0]] + p)[1..] == p;
        BoundaryShift(s, Len(Prefix(s, n)));
      } else {
        BoundaryShift(s, 0);
      }
      forall i | Len(Prefix(s, n)) < i <= n && i <= Len(s) ensures !IsCharBoundary(Encode(s), i) {
        BoundaryShift(s, i);
      }
    }
  }
}
