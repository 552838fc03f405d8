/** The names of the files in a session's `compaction/` directory: printing and parsing
    segment numbers, and recognising a path into the directory. */
module SegmentNames {
  import opened Wrappers
  import opened Text
  import Decimal

  const COMPACTION_DIR := "compaction"
  const INDEX_FILE := "INDEX.md"
  const SEGMENT_PREFIX := "segment_"
  const SEGMENT_SUFFIX := ".md"
  const U64_LIMIT: nat := 0x1_0000_0000_0000_0000

  // ---------------------------------------------------------------- names

  function Zeros(k: nat): (r: string)
    ensures |r| == k
  {
    if k == 0 then "" else "0" + Zeros(k - 1)
  }

  /** The number, padded with zeros to three digits. */
  function SegmentLabel(index: nat): string {
    var digits := Decimal.Render(index);
    Zeros(if |digits| < 3 then 3 - |digits| else 0) + digits
  }

  function SegmentFilename(index: nat): string {
    Named(SegmentLabel(index))
  }

  function Named(number: string): string {
    SEGMENT_PREFIX + number + SEGMENT_SUFFIX
  }

  function StripPrefix(s: string, p: string): Option<string> {
    if |p| <= |s| && s[..|p|] == p then Some(s[|p|..]) else None
  }

  function StripSuffix(s: string, p: string): Option<string> {
    var at := |s| - |p|;
    if 0 <= at && s[at..] == p then Some(s[..at]) else None
  }

  /** `str::parse::<u64>`: an optional plus sign, then digits, with a value below 2^64. */
  function ParseU64(s: string): (r: Option<nat>)
    ensures r.Some? ==> r.value < U64_LIMIT
  {
    var digits := if s != [] && s[0] == '+' then s[1..] else s;
    if digits != [] && Decimal.AllDigits(digits) && Decimal.Value(digits) < U64_LIMIT
    then Some(Decimal.Value(digits))
    else None
  }

  function ParseSegmentIndex(filename: string): Option<nat> {
    match StripPrefix(filename, SEGMENT_PREFIX)
    case None => None
    case Some(rest) =>
      match StripSuffix(rest, SEGMENT_SUFFIX)
      case None => None
      case Some(number) => ParseU64(number)
  }

  lemma ParseNamed(number: string)
    ensures ParseSegmentIndex(Named(number)) == ParseU64(number)
  {
    hide ParseU64;
    var name := Named(number);
    assert name == SEGMENT_PREFIX + (number + SEGMENT_SUFFIX);
    assert name[..|SEGMENT_PREFIX|] == SEGMENT_PREFIX;
    var rest := name[|SEGMENT_PREFIX|..];
    assert rest == number + SEGMENT_SUFFIX;
    assert rest[|number|..] == SEGMENT_SUFFIX && rest[..|number|] == number;
  }

  lemma ParsedIsNamed(filename: string) returns (number: string)
    requires ParseSegmentIndex(filename).Some?
    ensures filename == Named(number) && ParseSegmentIndex(filename) == ParseU64(number)
  {
    hide ParseU64;
    var rest := filename[|SEGMENT_PREFIX|..];
    number := rest[..|rest| - |SEGMENT_SUFFIX|];
    assert filename == SEGMENT_PREFIX + rest && rest == number + SEGMENT_SUFFIX;
  }

  /** Printing then parsing gives the number back, for every number of 64 bits. */
  lemma FilenameRoundTrip(index: nat)
    requires index < U64_LIMIT
    ensures ParseSegmentIndex(SegmentFilename(index)) == Some(index)
  {
    ParseNamed(SegmentLabel(index));
    var digits := Decimal.Render(index);
    PaddedParses(index, if |digits| < 3 then 3 - |digits| else 0, "");
    assert "" + SegmentLabel(index) == SegmentLabel(index);
    hide ParseU64, SegmentLabel, ParseSegmentIndex;
  }

  lemma PaddedParses(index: nat, k: nat, sign: string)
    requires index < U64_LIMIT && (sign == "" || sign == "+")
    ensures ParseU64(sign + (Zeros(k) + Decimal.Render(index))) == Some(index)
  {
    Decimal.RenderRoundTrip(index);
    hide Decimal.Render, Decimal.Value, Zeros, ParseU64, Decimal.AllDigits;
    PaddedValue(k, Decimal.Render(index));
    SignedParses(sign, Zeros(k) + Decimal.Render(index));
  }

  lemma SignedParses(sign: string, digits: string)
    requires sign == "" || sign == "+"
    requires digits != [] && Decimal.AllDigits(digits) && Decimal.Value(digits) < U64_LIMIT
    ensures ParseU64(sign + digits) == Some(Decimal.Value(digits))
  {
    hide Decimal.Value;
    assert Decimal.IsDigit(digits[0]);
    var s := sign + digits;
    if sign == "" {
      assert s == digits;
    } else {
      assert s[0] == '+' && s[1..] == digits;
    }
  }

  lemma {:induction false} PaddedValue(k: nat, digits: string)
    requires Decimal.AllDigits(digits)
    ensures Decimal.AllDigits(Zeros(k) + digits)
    ensures Decimal.Value(Zeros(k) + digits) == Decimal.Value(digits)
    decreases k, |digits|
  {
    var all := Zeros(k) + digits;
    if k > 0 && digits == [] {
      PaddedValue(k - 1, "");
      ZerosSnoc(k);
      assert all == Zeros(k) && Zeros(k - 1) + "" == Zeros(k - 1);
      assert all[..|all| - 1] == Zeros(k - 1) && all[|all| - 1] == '0';
    } else if k > 0 {
      var init := digits[..|digits| - 1];
      PaddedValue(k, init);
      assert all[..|all| - 1] == Zeros(k) + init;
      assert all[|all| - 1] == digits[|digits| - 1];
    } else {
      assert all == digits;
    }
  }

  lemma {:induction false} ZerosSnoc(k: nat)
    requires k > 0
    ensures Zeros(k) == Zeros(k - 1) + "0"
  {
    if k > 1 {
      ZerosSnoc(k - 1);
      assert Zeros(k) == "0" + (Zeros(k - 2) + "0");
    }
  }

  /** A text of digits is some zeros before the printed form of its value. */
  lemma {:induction false} DigitsAreRendered(s: string) returns (k: nat)
    requires s != [] && Decimal.AllDigits(s)
    ensures s == Zeros(k) + Decimal.Render(Decimal.Value(s))
  {
    var init, last := s[..|s| - 1], s[|s| - 1];
    assert s == init + [last];
    assert Decimal.Digit(Decimal.DigitValue(last)) == last;
    if init == [] {
      k := 0;
    } else {
      var n := Decimal.Value(init);
      k := DigitsAreRendered(init);
      if n == 0 {
        k := k + 1;
        ZerosSnoc(k);
        assert init == Zeros(k - 1) + "0";
      }
      assert (10 * n + Decimal.DigitValue(last)) / 10 == n;
    }
  }

  /** What the parser accepts for a number: the printed number behind an optional plus sign
      and any number of zeros. Only the name with the standard padding is ever written. */
  lemma ParsesIff(filename: string, index: nat)
    ensures ParseSegmentIndex(filename) == Some(index) <==>
      index < U64_LIMIT && exists sign, k :: IsNameOf(filename, sign, k, index)
  {
    if ParseSegmentIndex(filename) == Some(index) {
      var number := ParsedIsNamed(filename);
      var plus := number != [] && number[0] == '+';
      var sign, digits := if plus then "+" else "", if plus then number[1..] else number;
      var k := DigitsAreRendered(digits);
      assert number == sign + digits;
      assert IsNameOf(filename, sign, k, index);
    }
    if sign, k :| IsNameOf(filename, sign, k, index) && index < U64_LIMIT {
      PaddedParses(index, k, sign);
      ParseNamed(sign + (Zeros(k) + Decimal.Render(index)));
    }
  }

  ghost predicate IsNameOf(filename: string, sign: string, k: nat, index: nat) {
    (sign == "" || sign == "+") && filename == Named(sign + (Zeros(k) + Decimal.Render(index)))
  }

  // ---------------------------------------------------------------- paths

  datatype CompactionArtifact = Segment(index: nat) | Index | Dir

  function TrimEndSlashes(s: string): (r: string)
    ensures |r| <= |s|
  {
    if s != [] && s[|s| - 1] == '/' then TrimEndSlashes(s[..|s| - 1]) else s
  }

  predicate EndsWithSlash(s: string) {
    s != [] && s[|s| - 1] == '/'
  }

  predicate IsDirPath(path: string) {
    var trimmed := TrimEndSlashes(path);
    || trimmed == COMPACTION_DIR
    || (var prefix := StripSuffix(trimmed, COMPACTION_DIR);
        prefix.Some? && EndsWithSlash(prefix.value))
  }

  /** What follows the last `compaction` in the path, without the slash it must start with. */
  function AfterDir(path: string): Option<string> {
    match RFind(path, COMPACTION_DIR)
    case None => None
    case Some(at) => StripPrefix(path[at + |COMPACTION_DIR|..], "/")
  }

  function ClassifyCompactionPath(path: string): Option<CompactionArtifact> {
    if IsDirPath(path) then Some(Dir)
    else
      match AfterDir(path)
      case None => None
      case Some(rest) =>
        var index := ParseSegmentIndex(rest);
        if index.Some? then Some(Segment(index.value))
        else if rest == INDEX_FILE then Some(Index)
        else None
  }

  function InStore(prefix: string, name: string): string {
    prefix + "compaction/" + name
  }

  lemma Mismatch(s: string, p: nat, t: string, k: nat)
    requires p + k < |s| && k < |t| && s[p + k] != t[k]
    ensures !At(s, p, t)
  {
  }

  /** The directory's name overlaps itself nowhere, so a file name without the letter c leaves
      the one before the slash the last. */
  lemma LastDir(prefix: string, name: string)
    requires Lacks(name, 'c')
    ensures RFind(InStore(prefix, name), COMPACTION_DIR) == Some(|prefix|)
    ensures AfterDir(InStore(prefix, name)) == Some(name)
  {
    var path := InStore(prefix, name);
    assert path[|prefix|..|prefix| + 11] == "compaction/";
    assert At(path, |prefix|, COMPACTION_DIR);
    forall q: nat | |prefix| < q ensures !At(path, q, COMPACTION_DIR) {
      NotInside(prefix, name, q);
    }
    hide RFind;
    RFindIs(path, COMPACTION_DIR, |prefix|);
    assert path[|prefix| + 10..] == "/" + name;
    assert ("/" + name)[..1] == "/" && ("/" + name)[1..] == name;
  }

  lemma NotInside(prefix: string, name: string, q: nat)
    requires Lacks(name, 'c') && |prefix| < q
    ensures !At(InStore(prefix, name), q, COMPACTION_DIR)
  {
    var path := InStore(prefix, name);
    var d := "compaction/";
    if q < |path| {
      if |prefix| + |d| <= q {
        assert path[q] == name[q - |prefix| - |d|];
        Mismatch(path, q, COMPACTION_DIR, 0);
      } else {
        assert path[q] == d[q - |prefix|];
        if q == |prefix| + 5 {
          assert path[q + 1] == d[6];
          Mismatch(path, q, COMPACTION_DIR, 1);
        } else {
          Mismatch(path, q, COMPACTION_DIR, 0);
        }
      }
    }
  }

  lemma ParsedLacksC(name: string)
    requires ParseSegmentIndex(name).Some?
    ensures Lacks(name, 'c') && name != [] && name[|name| - 1] == 'd'
  {
    var number := ParsedIsNamed(name);
    forall i | 0 <= i < |number| ensures number[i] != 'c' {
      if !(i == 0 && number[0] == '+') {
        var digits := if number[0] == '+' then number[1..] else number;
        assert Decimal.IsDigit(digits[if number[0] == '+' then i - 1 else i]);
      }
    }
  }

  lemma SuffixEnds(s: string, p: string)
    requires p != []
    ensures StripSuffix(s, p).Some? ==> s != [] && s[|s| - 1] == p[|p| - 1]
  {
    if StripSuffix(s, p).Some? {
      assert s[|s| - |p|..][|p| - 1] == p[|p| - 1];
    }
  }

  lemma FileIsNoDir(prefix: string, name: string)
    requires name != [] && name[|name| - 1] == 'd'
    ensures !IsDirPath(InStore(prefix, name))
  {
    var path := InStore(prefix, name);
    assert path[|path| - 1] == 'd';
    assert TrimEndSlashes(path) == path;
    SuffixEnds(path, COMPACTION_DIR);
    assert COMPACTION_DIR[|COMPACTION_DIR| - 1] == 'n';
  }

  lemma AfterDirIs(path: string, rest: string) returns (prefix: string)
    requires AfterDir(path) == Some(rest)
    ensures path == InStore(prefix, rest)
  {
    RFindSpec(path, COMPACTION_DIR);
    var at := RFind(path, COMPACTION_DIR).value;
    hide RFind, Contains;
    AtSplits(path, at, COMPACTION_DIR);
    hide At;
    prefix := path[..at];
    var after := path[at + |COMPACTION_DIR|..];
    assert after == after[..1] + after[1..];
    assert path == prefix + (COMPACTION_DIR + "/") + rest;
    assert COMPACTION_DIR + "/" == "compaction/";
  }

  /** A path is a segment's exactly when it names the segment's file in a directory whose
      name ends in `compaction`, whatever comes before, the directory's own name included. */
  lemma SegmentIff(path: string, index: nat)
    ensures ClassifyCompactionPath(path) == Some(Segment(index)) <==>
      exists prefix, name :: path == InStore(prefix, name) && ParseSegmentIndex(name) == Some(index)
  {
    if ClassifyCompactionPath(path) == Some(Segment(index)) {
      hide ParseSegmentIndex, IsDirPath;
      var rest := AfterDir(path).value;
      var prefix := AfterDirIs(path, rest);
      assert path == InStore(prefix, rest);
    }
    if prefix, name :| path == InStore(prefix, name) && ParseSegmentIndex(name) == Some(index) {
      ParsedLacksC(name);
      LastDir(prefix, name);
      FileIsNoDir(prefix, name);
      hide ParseSegmentIndex, IsDirPath, AfterDir, InStore, Lacks;
    }
  }

  /** Every segment's file is found by its path, under every prefix. */
  lemma SegmentPathRoundTrip(prefix: string, index: nat)
    requires index < U64_LIMIT
    ensures ClassifyCompactionPath(InStore(prefix, SegmentFilename(index))) == Some(Segment(index))
  {
    FilenameRoundTrip(index);
    hide ParseSegmentIndex, SegmentFilename, InStore, ClassifyCompactionPath;
    SegmentIff(InStore(prefix, SegmentFilename(index)), index);
  }

  lemma IndexFileIsNoSegment()
    ensures ParseSegmentIndex(INDEX_FILE).None?
  {
    assert INDEX_FILE[..8][0] != SEGMENT_PREFIX[0];
  }

  lemma IndexIff(path: string)
    ensures ClassifyCompactionPath(path) == Some(Index) <==>
      exists prefix :: path == InStore(prefix, INDEX_FILE)
  {
    IndexFileIsNoSegment();
    hide ParseSegmentIndex, IsDirPath;
    if ClassifyCompactionPath(path) == Some(Index) {
      var prefix := AfterDirIs(path, INDEX_FILE);
      assert path == InStore(prefix, INDEX_FILE);
    }
    if prefix :| path == InStore(prefix, INDEX_FILE) {
      LastDir(prefix, INDEX_FILE);
      FileIsNoDir(prefix, INDEX_FILE);
      hide AfterDir, InStore;
    }
  }

  function Slashes(k: nat): (r: string)
    ensures |r| == k
  {
    if k == 0 then "" else Slashes(k - 1) + "/"
  }

  lemma {:induction false} TrimmedSlashes(s: string) returns (k: nat)
    ensures s == TrimEndSlashes(s) + Slashes(k)
    ensures !EndsWithSlash(TrimEndSlashes(s))
  {
    if EndsWithSlash(s) {
      k := TrimmedSlashes(s[..|s| - 1]);
      k := k + 1;
      assert s == s[..|s| - 1] + "/";
    } else {
      k := 0;
    }
  }

  lemma {:induction false} TrimPaddedSlashes(s: string, k: nat)
    requires !EndsWithSlash(s)
    ensures TrimEndSlashes(s + Slashes(k)) == s
  {
    var padded := s + Slashes(k);
    if k == 0 {
      assert padded == s;
    } else {
      assert padded[..|padded| - 1] == s + Slashes(k - 1);
      TrimPaddedSlashes(s, k - 1);
    }
  }

  /** A path is the directory's exactly when its last component is `compaction`, with any
      number of slashes after it. */
  lemma DirIff(path: string)
    ensures ClassifyCompactionPath(path) == Some(Dir) <==>
      exists parent, k :: IsDirAt(path, parent, k)
  {
    assert ClassifyCompactionPath(path) == Some(Dir) <==> IsDirPath(path) by {
      hide IsDirPath, AfterDir, ParseSegmentIndex;
    }
    hide ClassifyCompactionPath;
    if IsDirPath(path) {
      var k := TrimmedSlashes(path);
      var trimmed := TrimEndSlashes(path);
      var parent := trimmed[..|trimmed| - |COMPACTION_DIR|];
      assert trimmed == parent + COMPACTION_DIR;
      assert IsDirAt(path, parent, k);
    }
    if parent, k :| IsDirAt(path, parent, k) {
      var trimmed := parent + COMPACTION_DIR;
      TrimPaddedSlashes(trimmed, k);
      assert trimmed[|parent|..] == COMPACTION_DIR && trimmed[..|parent|] == parent;
    }
  }

  ghost predicate IsDirAt(path: string, parent: string, k: nat) {
    (parent == "" || EndsWithSlash(parent)) && path == (parent + COMPACTION_DIR) + Slashes(k)
  }
}
