/** The arena string interner, for an arbitrary hash function. */
module Interner {
  import opened Wrappers
  import opened Utf8

  type Bytes = seq<Byte>
  type Hash = Bytes -> nat
  type Offset = (nat, nat)
  type Lookup = map<nat, seq<nat>>

  /** `as u32` and `as u16`: the casts wrap around. */
  function AsU32(n: nat): nat {
    n % 0x1_0000_0000
  }

  function AsU16(n: nat): nat {
    n % 0x1_0000
  }

  /** `get_bytes` on the parts: `None` for an unknown id or a range outside the arena. */
  function Slice(arena: Bytes, offsets: seq<Offset>, id: nat): Option<Bytes>
  {
    if id >= |offsets| then None
    else
      var (start, len) := offsets[id];
      if start + len <= |arena| then Some(arena[start..start + len]) else None
  }

  datatype Table = Table(arena: Bytes, offsets: seq<Offset>, lookup: Lookup)

  function Push(m: Lookup, h: nat, id: nat): Lookup {
    m[h := (if h in m then m[h] else []) + [id]]
  }

  /** The lookup that `from_parts` builds from the first `n` offsets. */
  function LookupOf(arena: Bytes, offsets: seq<Offset>, hash: Hash, n: nat): Lookup
    requires n <= |offsets|
  {
    if n == 0 then map[]
    else
      var m := LookupOf(arena, offsets, hash, n - 1);
      match Slice(arena, offsets, n - 1)
      case None => m
      case Some(s) => Push(m, hash(s), AsU32(n - 1))
  }

  // ------------------------------------------------------------ the abstract value

  ghost predicate Distinct(strings: seq<Bytes>) {
    forall i, j | 0 <= i < j < |strings| :: strings[i] != strings[j]
  }

  /** A table stands for a sequence of distinct byte strings, stored back to back. */
  ghost predicate Represents(t: Table, hash: Hash, strings: seq<Bytes>) {
    && |t.offsets| == |strings| <= 0x1_0000_0000
    && Distinct(strings)
    && (forall i | 0 <= i < |strings| :: Slice(t.arena, t.offsets, i) == Some(strings[i]))
    && t.arena == Concat(strings)
    && t.lookup == LookupOf(t.arena, t.offsets, hash, |t.offsets|)
  }

  function Concat(strings: seq<Bytes>): Bytes {
    if strings == [] then [] else Concat(strings[..|strings| - 1]) + strings[|strings| - 1]
  }

  /** A string can be added without a cast losing bits. */
  predicate Fits(t: Table, s: Bytes) {
    |s| < 0x1_0000 && |t.arena| < 0x1_0000_0000 && |t.offsets| < 0x1_0000_0000
  }

  // ------------------------------------------------------------ the operations on values

  function SearchIn(arena: Bytes, offsets: seq<Offset>, ids: seq<nat>, s: Bytes): Option<nat> {
    if ids == [] then None
    else if Slice(arena, offsets, ids[0]) == Some(s) then Some(ids[0])
    else SearchIn(arena, offsets, ids[1..], s)
  }

  /** Bucket search by hash, then by content. */
  function Search(t: Table, hash: Hash, s: Bytes): Option<nat> {
    if hash(s) in t.lookup then SearchIn(t.arena, t.offsets, t.lookup[hash(s)], s) else None
  }

  function Append(t: Table, hash: Hash, s: Bytes): Table {
    Table(t.arena + s, t.offsets + [(AsU32(|t.arena|), AsU16(|s|))], Push(t.lookup, hash(s), AsU32(|t.offsets|)))
  }

  function Intern(t: Table, hash: Hash, s: Bytes): (Table, nat) {
    match Search(t, hash, s)
    case Some(id) => (t, id)
    case None => (Append(t, hash, s), AsU32(|t.offsets|))
  }

  function InternAll(t: Table, hash: Hash, inputs: seq<Bytes>): (Table, seq<nat>) {
    if inputs == [] then (t, [])
    else
      var (t', ids) := InternAll(t, hash, inputs[..|inputs| - 1]);
      var (t'', id) := Intern(t', hash, inputs[|inputs| - 1]);
      (t'', ids + [id])
  }

  // ------------------------------------------------------------ the buckets

  /** A bucket holds exactly the ids of the strings with its hash. */
  lemma {:induction false} BucketHolds(arena: Bytes, offsets: seq<Offset>, hash: Hash, n: nat, h: nat, id: nat)
    requires n <= |offsets| <= 0x1_0000_0000
    ensures var m := LookupOf(arena, offsets, hash, n);
      (h in m && id in m[h]) <==>
        id < n && Slice(arena, offsets, id).Some? && hash(Slice(arena, offsets, id).value) == h
  {
    hide Slice;
    if n > 0 {
      BucketHolds(arena, offsets, hash, n - 1, h, id);
      var m := LookupOf(arena, offsets, hash, n - 1);
      match Slice(arena, offsets, n - 1)
      case None =>
      case Some(s) =>
        var was := if h in m then m[h] else [];
        assert id in was + [n - 1] <==> id in was || id == n - 1;
    }
  }

  /** Growing the arena and the offset table keeps what was there. */
  lemma SliceStable(arena: Bytes, offsets: seq<Offset>, more: Bytes, entry: Offset, id: nat)
    requires id < |offsets| && Slice(arena, offsets, id).Some?
    ensures Slice(arena + more, offsets + [entry], id) == Slice(arena, offsets, id)
  {
    var (start, len) := offsets[id];
    assert (arena + more)[start..start + len] == arena[start..start + len];
  }

  lemma {:induction false} LookupStable(arena: Bytes, offsets: seq<Offset>, hash: Hash, more: Bytes, entry: Offset, n: nat)
    requires n <= |offsets| && forall i | 0 <= i < n :: Slice(arena, offsets, i).Some?
    ensures LookupOf(arena + more, offsets + [entry], hash, n) == LookupOf(arena, offsets, hash, n)
  {
    hide Slice, Push;
    if n > 0 {
      LookupStable(arena, offsets, hash, more, entry, n - 1);
      SliceStable(arena, offsets, more, entry, n - 1);
    }
  }

  // ------------------------------------------------------------ the interner

  class StringInterner {
    const hash: Hash
    var arena: Bytes
    var lookup: Lookup
    var offsets: seq<Offset>

    function State(): Table
      reads this
    {
      Table(arena, offsets, lookup)
    }

    constructor (hash: Hash)
      ensures this.hash == hash && State() == Table([], [], map[])
    {
      this.hash := hash;
      arena, lookup, offsets := [], map[], [];
    }

    /** `get_bytes`. */
    function GetBytes(id: nat): Option<Bytes>
      reads this
    {
      Slice(arena, offsets, id)
    }

    /** `get_bytes_id`: searches the bucket of the hash, comparing bytes. */
    method GetBytesId(s: Bytes) returns (r: Option<nat>)
      ensures r == Search(State(), hash, s)
    {
      var h := hash(s);
      if h !in lookup {
        return None;
      }
      var ids := lookup[h];
      var k := 0;
      assert ids[0..] == ids;
      while k < |ids|
        invariant k <= |ids| && SearchIn(arena, offsets, ids[k..], s) == SearchIn(arena, offsets, ids, s)
      {
        assert ids[k..][0] == ids[k] && ids[k..][1..] == ids[k + 1..];
        if GetBytes(ids[k]) == Some(s) {
          return Some(ids[k]);
        }
        k := k + 1;
      }
      assert ids[k..] == [];
      r := None;
    }

    /** `intern_bytes`. Without room the casts wrap, and the new entry is what they leave. */
    method InternBytes(s: Bytes) returns (id: nat)
      modifies this
      ensures (State(), id) == Intern(old(State()), hash, s)
    {
      var found := GetBytesId(s);
      if found.Some? {
        return found.value;
      }
      var start, len := AsU32(|arena|), AsU16(|s|);
      arena := arena + s;
      id := AsU32(|offsets|);
      offsets := offsets + [(start, len)];
      lookup := Push(lookup, hash(s), id);
    }

    /** `from_parts`: rebuilds the lookup from the serialized arena and offsets. */
    constructor FromParts(hash: Hash, arena: Bytes, offsets: seq<Offset>)
      ensures this.hash == hash && this.arena == arena && this.offsets == offsets
      ensures lookup == LookupOf(arena, offsets, hash, |offsets|)
    {
      var m: Lookup := map[];
      var i := 0;
      while i < |offsets|
        invariant i <= |offsets| && m == LookupOf(arena, offsets, hash, i)
      {
        var s := Slice(arena, offsets, i);
        if s.Some? {
          m := Push(m, hash(s.value), AsU32(i));
        }
        i := i + 1;
      }
      this.hash, this.arena, this.offsets, lookup := hash, arena, offsets, m;
    }

    /** `clear`. */
    method Clear()
      modifies this
      ensures State() == Table([], [], map[])
    {
      arena, lookup, offsets := [], map[], [];
    }

    /** `iter_bytes`: all strings with their ids, in id order. */
    method IterBytes() returns (r: seq<(nat, Bytes)>)
      ensures r == Listing(arena, offsets, |offsets|)
    {
      r := [];
      var i := 0;
      while i < |offsets|
        invariant i <= |offsets| && r == Listing(arena, offsets, i)
      {
        var s := GetBytes(i);
        if s.Some? {
          r := r + [(AsU32(i), s.value)];
        }
        i := i + 1;
      }
    }
  }

  function Listing(arena: Bytes, offsets: seq<Offset>, n: nat): seq<(nat, Bytes)>
    requires n <= |offsets|
  {
    if n == 0 then []
    else
      var last := match Slice(arena, offsets, n - 1) case None => [] case Some(s) => [(AsU32(n - 1), s)];
      Listing(arena, offsets, n - 1) + last
  }

  // ------------------------------------------------------------ refinement

  lemma {:induction false} SearchInFinds(arena: Bytes, offsets: seq<Offset>, ids: seq<nat>, s: Bytes)
    ensures match SearchIn(arena, offsets, ids, s)
      case None => forall id | id in ids :: Slice(arena, offsets, id) != Some(s)
      case Some(id) => id in ids && Slice(arena, offsets, id) == Some(s)
  {
    hide Slice;
    if ids != [] {
      SearchInFinds(arena, offsets, ids[1..], s);
      assert ids == [ids[0]] + ids[1..];
    }
  }

  /** Looking a string up answers `Some(i)` iff it is the i-th interned string, whatever the
      hash function. */
  lemma SearchRefines(t: Table, hash: Hash, strings: seq<Bytes>, s: Bytes, i: nat)
    requires Represents(t, hash, strings)
    ensures Search(t, hash, s) == Some(i) <==> i < |strings| && strings[i] == s
  {
    var r := Search(t, hash, s);
    var h := hash(s);
    if h in t.lookup {
      SearchInFinds(t.arena, t.offsets, t.lookup[h], s);
    }
    BucketHolds(t.arena, t.offsets, hash, |t.offsets|, h, i);
    hide LookupOf, Concat, SearchIn;
    if i < |strings| && strings[i] == s {
      assert Slice(t.arena, t.offsets, i) == Some(s);
      BucketHolds(t.arena, t.offsets, hash, |t.offsets|, h, r.value);
    }
    if r == Some(i) {
      assert Slice(t.arena, t.offsets, i) == Some(strings[i]);
    }
  }

  lemma AppendSlices(t: Table, hash: Hash, strings: seq<Bytes>, s: Bytes)
    requires Represents(t, hash, strings) && Fits(t, s)
    ensures var t' := Append(t, hash, s); var strings' := strings + [s];
      forall i | 0 <= i < |strings'| :: Slice(t'.arena, t'.offsets, i) == Some(strings'[i])
  {
    hide LookupOf, Concat, Push;
    var t', n := Append(t, hash, s), |t.offsets|;
    assert t'.offsets[n] == (|t.arena|, |s|);
    assert t'.arena[|t.arena|..|t.arena| + |s|] == s;
    forall i | 0 <= i < n ensures Slice(t'.arena, t'.offsets, i) == Some(strings[i]) {
      assert Slice(t.arena, t.offsets, i) == Some(strings[i]);
      SliceStable(t.arena, t.offsets, s, t'.offsets[n], i);
    }
  }

  lemma AppendLookup(t: Table, hash: Hash, s: Bytes)
    requires |t.offsets| < 0x1_0000_0000 && t.lookup == LookupOf(t.arena, t.offsets, hash, |t.offsets|)
    requires forall i | 0 <= i < |t.offsets| :: Slice(t.arena, t.offsets, i).Some?
    requires var t' := Append(t, hash, s); Slice(t'.arena, t'.offsets, |t.offsets|) == Some(s)
    ensures var t' := Append(t, hash, s); t'.lookup == LookupOf(t'.arena, t'.offsets, hash, |t'.offsets|)
  {
    hide Slice, Push;
    LookupStable(t.arena, t.offsets, hash, s, (AsU32(|t.arena|), AsU16(|s|)), |t.offsets|);
  }

  /** Adding a new string that fits appends it to the sequence the table stands for. */
  lemma AppendRefines(t: Table, hash: Hash, strings: seq<Bytes>, s: Bytes)
    requires Represents(t, hash, strings) && s !in strings && Fits(t, s)
    ensures Represents(Append(t, hash, s), hash, strings + [s])
  {
    var strings' := strings + [s];
    AppendSlices(t, hash, strings, s);
    assert strings'[..|strings'| - 1] == strings;
    forall i | 0 <= i < |t.offsets| ensures Slice(t.arena, t.offsets, i).Some? {
      assert Slice(t.arena, t.offsets, i) == Some(strings[i]);
    }
    assert strings'[|strings|] == s;
    hide Slice, Push, LookupOf;
    AppendLookup(t, hash, s);
    assert Distinct(strings') by {
      forall i, j | 0 <= i < j < |strings'| ensures strings'[i] != strings'[j] {
        assert j == |strings| ==> strings[i] in strings;
      }
    }
  }

  /** What interning does to the sequence of distinct strings. */
  function Interned(strings: seq<Bytes>, s: Bytes): (r: seq<Bytes>)
    ensures strings <= r && s in r
  {
    if s in strings then strings else strings + [s]
  }

  /** Interning refines the growing sequence: the id it returns stands for the string, and all
      earlier ids keep their meaning. */
  lemma InternRefines(t: Table, hash: Hash, strings: seq<Bytes>, s: Bytes)
    requires Represents(t, hash, strings) && (s in strings || Fits(t, s))
    ensures var (t', id) := Intern(t, hash, s); var strings' := Interned(strings, s);
      Represents(t', hash, strings') && id < |strings'| && strings'[id] == s
  {
    hide Slice, LookupOf, Concat, Append;
    if s in strings {
      var i :| 0 <= i < |strings| && strings[i] == s;
      SearchRefines(t, hash, strings, s, i);
    } else {
      var r := Search(t, hash, s);
      if r.Some? {
        SearchRefines(t, hash, strings, s, r.value);
        assert false;
      }
      AppendRefines(t, hash, strings, s);
    }
    hide Search, Represents;
  }

  function AllInterned(inputs: seq<Bytes>): seq<Bytes> {
    if inputs == [] then [] else Interned(AllInterned(inputs[..|inputs| - 1]), inputs[|inputs| - 1])
  }

  /** The casts lose nothing over a run: each input is short enough, and the distinct inputs
      are few enough and small enough together. How often they come back does not matter. */
  ghost predicate RunFits(inputs: seq<Bytes>) {
    && (forall k | 0 <= k < |inputs| :: |inputs[k]| < 0x1_0000)
    && |AllInterned(inputs)| <= 0x1_0000_0000 && |Concat(AllInterned(inputs))| < 0x1_0000_0000
  }

  /** The run before the last input fits too, and leaves room for that input if it is new. */
  lemma FitsBefore(inputs: seq<Bytes>)
    requires RunFits(inputs) && inputs != []
    ensures var before, s := inputs[..|inputs| - 1], inputs[|inputs| - 1];
      && RunFits(before) && AllInterned(inputs) == Interned(AllInterned(before), s)
      && (s in AllInterned(before)
          || (|AllInterned(before)| < 0x1_0000_0000 && |Concat(AllInterned(before))| + |s| < 0x1_0000_0000))
  {
    var before, s := inputs[..|inputs| - 1], inputs[|inputs| - 1];
    var strings := AllInterned(before);
    assert (strings + [s])[..|strings|] == strings;
    assert forall k | 0 <= k < |before| :: before[k] == inputs[k];
  }

  /** Every id stands for its input in a sequence of strings. */
  ghost predicate Resolve(ids: seq<nat>, strings: seq<Bytes>, inputs: seq<Bytes>) {
    && |ids| == |inputs|
    && forall k | 0 <= k < |inputs| :: ids[k] < |strings| && strings[ids[k]] == inputs[k]
  }

  lemma ResolveMore(ids: seq<nat>, id: nat, strings: seq<Bytes>, more: seq<Bytes>, inputs: seq<Bytes>)
    requires inputs != [] && Resolve(ids, strings, inputs[..|inputs| - 1]) && strings <= more
    requires id < |more| && more[id] == inputs[|inputs| - 1]
    ensures Resolve(ids + [id], more, inputs)
  {
  }

  /** Any sequence of calls on an empty interner, with any hash function: the table stands for
      the distinct inputs in order of first appearance, and every returned id still resolves to
      its input at the end. */
  lemma {:induction false} RunRefines(hash: Hash, inputs: seq<Bytes>)
    requires RunFits(inputs)
    ensures var (t, ids) := InternAll(Table([], [], map[]), hash, inputs);
      Represents(t, hash, AllInterned(inputs)) && Resolve(ids, AllInterned(inputs), inputs)
  {
    if inputs == [] {
      EmptyRepresents(hash);
    } else {
      var before, s := inputs[..|inputs| - 1], inputs[|inputs| - 1];
      assert |s| < 0x1_0000;
      FitsBefore(inputs);
      hide Intern, Represents, Interned, RunFits, AllInterned, Concat, Resolve;
      RunRefines(hash, before);
      var (t, ids) := InternAll(Table([], [], map[]), hash, before);
      var strings := AllInterned(before);
      ArenaSize(t, hash, strings);
      InternRefines(t, hash, strings, s);
      ResolveMore(ids, Intern(t, hash, s).1, strings, AllInterned(inputs), inputs);
    }
  }

  lemma EmptyRepresents(hash: Hash)
    ensures Represents(Table([], [], map[]), hash, [])
  {
  }

  lemma ArenaSize(t: Table, hash: Hash, strings: seq<Bytes>)
    requires Represents(t, hash, strings)
    ensures |t.arena| == |Concat(strings)| && |t.offsets| == |strings|
  {
  }

  /** Two inputs get the same id iff they are equal. */
  lemma SameIdIffEqual(hash: Hash, inputs: seq<Bytes>, j: nat, k: nat)
    requires RunFits(inputs) && j < |inputs| && k < |inputs|
    ensures var ids := InternAll(Table([], [], map[]), hash, inputs).1;
      |ids| == |inputs| && (ids[j] == ids[k] <==> inputs[j] == inputs[k])
  {
    RunRefines(hash, inputs);
    hide InternAll, AllInterned, Concat, LookupOf, RunFits;
  }

  /** Serializing arena and offsets after any run and rebuilding the lookup gives back the same
      table, and so the same answer to every lookup. */
  lemma PartsRoundTrip(hash: Hash, inputs: seq<Bytes>, s: Bytes)
    requires RunFits(inputs)
    ensures var t := InternAll(Table([], [], map[]), hash, inputs).0;
      var rebuilt := Table(t.arena, t.offsets, LookupOf(t.arena, t.offsets, hash, |t.offsets|));
      && rebuilt == t
      && forall i: nat :: Search(rebuilt, hash, s) == Some(i) <==>
           i < |AllInterned(inputs)| && AllInterned(inputs)[i] == s
  {
    RunRefines(hash, inputs);
    var t := InternAll(Table([], [], map[]), hash, inputs).0;
    hide InternAll, AllInterned, Concat, RunFits, LookupOf, Search;
    forall i: nat ensures Search(t, hash, s) == Some(i) <==> i < |AllInterned(inputs)| && AllInterned(inputs)[i] == s {
      SearchRefines(t, hash, AllInterned(inputs), s, i);
    }
  }

  /** `iter_bytes` lists the strings in id order. */
  lemma {:induction false} ListingIs(t: Table, hash: Hash, strings: seq<Bytes>, n: nat)
    requires Represents(t, hash, strings) && n <= |strings|
    ensures Listing(t.arena, t.offsets, n) == seq(n, i requires 0 <= i < n => (i, strings[i]))
  {
    if n > 0 {
      ListingIs(t, hash, strings, n - 1);
      assert Slice(t.arena, t.offsets, n - 1) == Some(strings[n - 1]);
      hide LookupOf, Concat;
    }
  }

  /** Why the sizes matter: with room in the arena, interning a new string returns an id that
      reads it back iff its length survives the cast to 16 bits and the id the cast to 32. */
  lemma ReadBackIff(t: Table, hash: Hash, strings: seq<Bytes>, s: Bytes)
    requires Represents(t, hash, strings) && s !in strings && |t.arena| < 0x1_0000_0000
    ensures var (t', id) := Intern(t, hash, s);
      Slice(t'.arena, t'.offsets, id) == Some(s) <==> |s| < 0x1_0000 && |strings| < 0x1_0000_0000
  {
    NewIsAppended(t, hash, strings, s);
    var t', n := Append(t, hash, s), |t.offsets|;
    assert t'.offsets[n] == (|t.arena|, AsU16(|s|));
    hide Push, LookupOf, Represents, Intern, Search;
    if n < 0x1_0000_0000 {
      assert t'.arena[|t.arena|..|t.arena| + AsU16(|s|)] == s[..AsU16(|s|)];
      assert s[..|s|] == s;
    } else {
      FirstIsKept(t, hash, strings, s);
    }
  }

  lemma NewIsAppended(t: Table, hash: Hash, strings: seq<Bytes>, s: Bytes)
    requires Represents(t, hash, strings) && s !in strings
    ensures Intern(t, hash, s) == (Append(t, hash, s), AsU32(|t.offsets|)) && |t.offsets| == |strings|
  {
    var r := Search(t, hash, s);
    if r.Some? {
      SearchRefines(t, hash, strings, s, r.value);
    }
    hide Search, LookupOf, Concat, Append;
  }

  /** With the table full, the wrapped id is 0, which stands for another string. */
  lemma FirstIsKept(t: Table, hash: Hash, strings: seq<Bytes>, s: Bytes)
    requires Represents(t, hash, strings) && s !in strings && |strings| == 0x1_0000_0000
    ensures var t' := Append(t, hash, s);
      AsU32(|t.offsets|) == 0 && Slice(t'.arena, t'.offsets, 0) != Some(s)
  {
    hide LookupOf, Concat, Push;
    assert Slice(t.arena, t.offsets, 0) == Some(strings[0]) && strings[0] in strings;
    SliceStable(t.arena, t.offsets, s, (AsU32(|t.arena|), AsU16(|s|)), 0);
  }

  /** What a new entry reads back in every case: the casts shorten the string to its length
      modulo 2^16 and, in an arena beyond 2^32 bytes, start it at the wrapped position. */
  lemma ReadBackIs(t: Table, hash: Hash, strings: seq<Bytes>, s: Bytes)
    requires Represents(t, hash, strings) && s !in strings && |strings| < 0x1_0000_0000
    ensures var (t', id) := Intern(t, hash, s);
      var start, len := |t.arena| % 0x1_0000_0000, |s| % 0x1_0000;
      && id == |strings| && t'.arena == t.arena + s && start + len <= |t'.arena|
      && Slice(t'.arena, t'.offsets, id) == Some(t'.arena[start..start + len])
      && (|t.arena| < 0x1_0000_0000 ==> Slice(t'.arena, t'.offsets, id) == Some(s[..len]))
  {
    NewIsAppended(t, hash, strings, s);
    var t', n := Append(t, hash, s), |t.offsets|;
    assert t'.offsets[n] == (|t.arena| % 0x1_0000_0000, |s| % 0x1_0000);
    hide Push, LookupOf, Represents, Intern, Search;
    assert (t.arena + s)[|t.arena|..|t.arena| + |s| % 0x1_0000] == s[..|s| % 0x1_0000];
  }

  // ------------------------------------------------------------ arbitrary parts

  ghost predicate Ascending(ids: seq<nat>, n: nat) {
    (forall i, j | 0 <= i < j < |ids| :: ids[i] < ids[j]) && forall i | 0 <= i < |ids| :: ids[i] < n
  }

  /** Every bucket lists its ids in ascending order. */
  lemma {:induction false} BucketAscends(arena: Bytes, offsets: seq<Offset>, hash: Hash, n: nat, h: nat)
    requires n <= |offsets| <= 0x1_0000_0000
    ensures var m := LookupOf(arena, offsets, hash, n); h in m ==> Ascending(m[h], n)
  {
    hide Slice;
    if n > 0 {
      BucketAscends(arena, offsets, hash, n - 1, h);
    }
  }

  /** The search stops at the first match. */
  lemma {:induction false} SearchInFirst(arena: Bytes, offsets: seq<Offset>, ids: seq<nat>, s: Bytes, n: nat)
    requires Ascending(ids, n)
    ensures match SearchIn(arena, offsets, ids, s)
      case None => true
      case Some(id) => forall j | j in ids && j < id :: Slice(arena, offsets, j) != Some(s)
  {
    hide Slice;
    if ids != [] {
      assert forall i | 0 <= i < |ids[1..]| :: ids[1..][i] == ids[i + 1];
      SearchInFirst(arena, offsets, ids[1..], s, n);
      assert ids == [ids[0]] + ids[1..];
    }
  }

  /** A lookup rebuilt from any parts, even with ranges outside the arena or the same string
      twice, finds the lowest id that reads the string. */
  lemma PartsSearch(arena: Bytes, offsets: seq<Offset>, hash: Hash, s: Bytes, i: nat)
    requires |offsets| <= 0x1_0000_0000
    ensures var t := Table(arena, offsets, LookupOf(arena, offsets, hash, |offsets|));
      Search(t, hash, s) == Some(i) <==>
        && i < |offsets| && Slice(arena, offsets, i) == Some(s)
        && forall j | 0 <= j < i :: Slice(arena, offsets, j) != Some(s)
  {
    var t := Table(arena, offsets, LookupOf(arena, offsets, hash, |offsets|));
    var h := hash(s);
    var r := Search(t, hash, s);
    if h in t.lookup {
      SearchInFinds(arena, offsets, t.lookup[h], s);
      BucketAscends(arena, offsets, hash, |offsets|, h);
      SearchInFirst(arena, offsets, t.lookup[h], s, |offsets|);
    }
    forall j: nat ensures Slice(arena, offsets, j) == Some(s) ==> h in t.lookup && j in t.lookup[h] {
      BucketHolds(arena, offsets, hash, |offsets|, h, j);
      KnownIds(arena, offsets, j);
    }
    hide LookupOf, SearchIn, Slice, Ascending;
  }

  lemma KnownIds(arena: Bytes, offsets: seq<Offset>, id: nat)
    ensures Slice(arena, offsets, id).Some? ==> id < |offsets|
  {
  }
}
