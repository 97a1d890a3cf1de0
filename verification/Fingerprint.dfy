/** The identity of a download request: its comparison and the bytes its fingerprint hashes
    (internal/verify/check.go). Strings are bytes; the hash itself is not part of this model. */
module Fingerprint {

  type Byte = x: int | 0 <= x < 256
  type Bytes = seq<Byte>

  /** What was asked of the upstream, and the commit that landed. */
  datatype Source = Source(kind: Bytes, repo: Bytes, revision: Bytes, endpoint: Bytes, subdir: Bytes,
                           urlSHA256: Bytes, declaredSHA256: Bytes, included: seq<Bytes>, excluded: seq<Bytes>,
                           commit: Bytes)

  /** The commit is not compared. */
  predicate Equal(s: Source, o: Source) {
    s.kind == o.kind && s.repo == o.repo && s.revision == o.revision && s.endpoint == o.endpoint &&
    s.subdir == o.subdir && s.urlSHA256 == o.urlSHA256 && s.declaredSHA256 == o.declaredSHA256 &&
    s.included == o.included && s.excluded == o.excluded
  }

  function Scalars(s: Source): seq<Bytes> {
    [s.kind, s.repo, s.revision, s.endpoint, s.subdir, s.urlSHA256, s.declaredSHA256]
  }

  /** Strings one after the other, each closed by a zero byte. */
  function Closed(parts: seq<Bytes>): Bytes {
    if parts == [] then [] else parts[0] + [0] + Closed(parts[1..])
  }

  /** The bytes of a source: its scalars, then each list closed by a one byte. */
  function Hashed(s: Source): Bytes {
    Closed(Scalars(s)) + (Closed(s.included) + [1]) + (Closed(s.excluded) + [1])
  }

  lemma ClosedOne(part: Bytes)
    ensures Closed([part]) == part + [0]
  {
    assert |[part][1..]| == 0;
    assert part + [0] + [] == part + [0];
  }

  /** Writes parts to the hasher, each with its zero byte. */
  method WriteParts(written: Bytes, parts: seq<Bytes>) returns (r: Bytes)
    ensures r == written + Closed(parts)
  {
    r := written;
    for i := 0 to |parts|
      invariant r == written + Closed(parts[..i])
    {
      ClosedConcat(parts[..i], [parts[i]]);
      assert parts[..i] + [parts[i]] == parts[..i + 1];
      ClosedOne(parts[i]);
      r := r + parts[i];
      r := r + [0];
    }
    assert parts[..|parts|] == parts;
  }

  method WriteFingerprint(s: Source) returns (hashed: Bytes)
    ensures hashed == Hashed(s)
  {
    hashed := WriteParts([], Scalars(s));
    assert hashed == Closed(Scalars(s));
    var lists := [s.included, s.excluded];
    for i := 0 to |lists|
      invariant i == 0 ==> hashed == Closed(Scalars(s))
      invariant i == 1 ==> hashed == Closed(Scalars(s)) + (Closed(s.included) + [1])
      invariant i == 2 ==> hashed == Hashed(s)
    {
      ghost var before := hashed;
      hashed := WriteParts(hashed, lists[i]);
      hashed := hashed + [1];
      assert hashed == before + (Closed(lists[i]) + [1]);
    }
  }

  /** A string, its zero byte, and what follows. */
  function Before(part: Bytes, rest: Bytes): Bytes {
    part + [0] + rest
  }

  lemma ClosedBefore(part: Bytes, parts: seq<Bytes>, rest: Bytes)
    ensures Closed([part] + parts) + rest == Before(part, Closed(parts) + rest)
  {
    ClosedConcat([part], parts);
    ClosedOne(part);
    assert part + [0] + Closed(parts) + rest == part + [0] + (Closed(parts) + rest);
  }

  /** The bytes, one part after the other: the seven scalars in this order, the inclusions, a one byte, the exclusions,
      and another. */
  lemma HashedIs(s: Source)
    ensures Hashed(s) ==
              Before(s.kind, Before(s.repo, Before(s.revision, Before(s.endpoint, Before(s.subdir,
              Before(s.urlSHA256, Before(s.declaredSHA256, Closed(s.included) + [1] + (Closed(s.excluded) + [1]))))))))
  {
    var rest := Closed(s.included) + [1] + (Closed(s.excluded) + [1]);
    var three := [s.subdir] + ([s.urlSHA256] + [s.declaredSHA256]);
    assert Hashed(s) == Closed(Scalars(s)) + rest;
    assert Scalars(s) == [s.kind] + ([s.repo] + ([s.revision] + ([s.endpoint] + three)));
    hide Closed, Before, Hashed, Scalars;
    ClosedBefore(s.kind, [s.repo] + ([s.revision] + ([s.endpoint] + three)), rest);
    ClosedBefore(s.repo, [s.revision] + ([s.endpoint] + three), rest);
    ClosedBefore(s.revision, [s.endpoint] + three, rest);
    ClosedBefore(s.endpoint, three, rest);
    ClosedBefore(s.subdir, [s.urlSHA256] + [s.declaredSHA256], rest);
    ClosedBefore(s.urlSHA256, [s.declaredSHA256], rest);
    ClosedBefore(s.declaredSHA256, [], rest);
    assert [s.declaredSHA256] + [] == [s.declaredSHA256];
    ClosedNone(rest);
  }

  lemma ClosedNone(rest: Bytes)
    ensures Closed([]) + rest == rest
  {
  }

  // ---- Reading the bytes back ----

  /** Strings that hold no zero byte. */
  predicate Unbroken(parts: seq<Bytes>) {
    forall i | 0 <= i < |parts| :: 0 !in parts[i]
  }

  predicate ZeroFree(s: Source) {
    Unbroken(Scalars(s)) && Unbroken(s.included) && Unbroken(s.excluded)
  }

  /** The byte that closes a list can be taken for the beginning of this string, and the other way round. */
  predicate Marked(part: Bytes) {
    part != [] && part[0] == 1
  }

  /** An inclusion begins with the closing byte and there are exclusions, or an exclusion other than the
      first begins with it. */
  predicate AmbiguousLists(included: seq<Bytes>, excluded: seq<Bytes>) {
    || (excluded != [] && exists i | 0 <= i < |included| :: Marked(included[i]))
    || exists i | 1 <= i < |excluded| :: Marked(excluded[i])
  }

  predicate Ambiguous(s: Source) {
    AmbiguousLists(s.included, s.excluded)
  }

  lemma {:induction false} ClosedConcat(a: seq<Bytes>, b: seq<Bytes>)
    ensures Closed(a + b) == Closed(a) + Closed(b)
    decreases |a|
  {
    if a == [] {
      assert a + b == b;
    } else {
      assert (a + b)[1..] == a[1..] + b;
      ClosedConcat(a[1..], b);
      var x, y, z := a[0] + [0], Closed(a[1..]), Closed(b);
      assert x + (y + z) == x + y + z;
    }
  }

  /** The length of the part of s before its first zero byte. */
  function BeforeZero(s: Bytes): nat {
    if s == [] || s[0] == 0 then 0 else 1 + BeforeZero(s[1..])
  }

  lemma {:induction false} BeforeZeroOf(a: Bytes, rest: Bytes)
    requires 0 !in a
    ensures BeforeZero(a + [0] + rest) == |a|
    decreases |a|
  {
    if a == [] {
      assert (a + [0] + rest)[0] == 0;
    } else {
      assert a[0] in a;
      assert (a + [0] + rest)[1..] == a[1..] + [0] + rest;
      BeforeZeroOf(a[1..], rest);
    }
  }

  /** Two strings without a zero byte, closed by one, are told apart from whatever follows. */
  lemma FirstPartIsRead(a: Bytes, b: Bytes, restA: Bytes, restB: Bytes)
    requires 0 !in a && 0 !in b && a + [0] + restA == b + [0] + restB
    ensures a == b && restA == restB
  {
    BeforeZeroOf(a, restA);
    BeforeZeroOf(b, restB);
    var s, t := a + [0] + restA, b + [0] + restB;
    assert a == s[..|a|] == t[..|b|] == b;
    assert restA == s[|a| + 1..] == t[|b| + 1..] == restB;
  }

  /** Equally many parts are read back one by one. */
  lemma {:induction false} PartsAreRead(a: seq<Bytes>, b: seq<Bytes>, restA: Bytes, restB: Bytes)
    requires Unbroken(a) && Unbroken(b) && |a| == |b| && Closed(a) + restA == Closed(b) + restB
    ensures a == b && restA == restB
    decreases |a|
  {
    if a == [] {
      assert Closed(a) + restA == restA && Closed(b) + restB == restB;
    } else {
      PeelFirst(a, restA);
      PeelFirst(b, restB);
      FirstPartIsRead(a[0], b[0], Closed(a[1..]) + restA, Closed(b[1..]) + restB);
      PartsAreRead(a[1..], b[1..], restA, restB);
      assert a == [a[0]] + a[1..] && b == [b[0]] + b[1..];
    }
  }

  lemma PeelFirst(a: seq<Bytes>, rest: Bytes)
    requires a != []
    ensures Closed(a) + rest == a[0] + [0] + (Closed(a[1..]) + rest)
  {
  }

  lemma LastByte(a: seq<Bytes>)
    requires a != []
    ensures Closed(a) != [] && Closed(a)[|Closed(a)| - 1] == 0
  {
    assert a == a[..|a| - 1] + [a[|a| - 1]];
    ClosedConcat(a[..|a| - 1], [a[|a| - 1]]);
    ClosedOne(a[|a| - 1]);
  }

  lemma FirstByte(a: seq<Bytes>, rest: Bytes)
    requires a != [] && Closed(a) + rest != [] && (Closed(a) + rest)[0] == 1
    ensures Marked(a[0])
  {
    PeelFirst(a, rest);
  }

  /** The inclusions, the byte that closes them, and the exclusions. */
  function Both(included: seq<Bytes>, excluded: seq<Bytes>): Bytes {
    Closed(included) + ([1] + Closed(excluded))
  }

  /** A list whose bytes go on with a one byte where another list ends has a part that begins with it there. */
  lemma {:induction false} LaterPartIsMarked(a: seq<Bytes>, b: seq<Bytes>, rest: Bytes)
    requires Unbroken(a) && Unbroken(b) && rest != [] && rest[0] == 1 && Closed(a) + rest == Closed(b)
    ensures |a| < |b| && Marked(b[|a|])
    decreases |a|
  {
    if a == [] {
      assert Closed(a) + rest == rest;
      assert b != [];
      assert Closed(b) + [] == Closed(b);
      FirstByte(b, []);
    } else {
      PeelFirst(a, rest);
      assert b != [];
      PeelFirst(b, []);
      assert Closed(b) + [] == Closed(b) && Closed(b[1..]) + [] == Closed(b[1..]);
      FirstPartIsRead(a[0], b[0], Closed(a[1..]) + rest, Closed(b[1..]));
      LaterPartIsMarked(a[1..], b[1..], rest);
    }
  }

  lemma LastOfBoth(included: seq<Bytes>, excluded: seq<Bytes>)
    ensures var bytes := Both(included, excluded);
            |bytes| > |Closed(included)| && (bytes[|bytes| - 1] == 1 <==> excluded == [])
  {
    if excluded != [] {
      LastByte(excluded);
    }
  }

  /** Inclusions that end sooner on the one side: their closing byte is the beginning of an inclusion on the
      other, and the exclusions there are not none. */
  lemma EndsSooner(excludedA: seq<Bytes>, b: seq<Bytes>, excludedB: seq<Bytes>)
    requires b != [] && Unbroken(excludedA) && Unbroken(b) && Unbroken(excludedB)
    requires Both([], excludedA) == Both(b, excludedB)
    ensures Marked(b[0]) && excludedB != []
    ensures exists i | 1 <= i < |excludedA| :: Marked(excludedA[i])
  {
    hide Closed, Marked;
    LastOfBoth([], excludedA);
    LastOfBoth(b, excludedB);
    BothOfNone(excludedA);
    LastByte(b);
    FirstByte(b, [1] + Closed(excludedB));
    NoShorter(excludedA);
    var q := b[0][1..];
    assert b == [[1] + q] + b[1..] by { MarkedBegins(b[0]); }
    RestOfBoth(excludedA, q, b[1..], excludedB);
    LaterPartIsMarked([q] + b[1..], excludedA, [1] + Closed(excludedB));
  }

  lemma MarkedBegins(part: Bytes)
    requires Marked(part)
    ensures part == [1] + part[1..]
  {
  }

  lemma NoShorter(excluded: seq<Bytes>)
    ensures excluded == [] <==> |Both([], excluded)| == 1
  {
    BothOfNone(excluded);
    if excluded != [] {
      LastByte(excluded);
    }
  }

  lemma BothOfNone(excluded: seq<Bytes>)
    ensures Both([], excluded) == [1] + Closed(excluded)
  {
  }

  /** Taking the one byte off both. */
  lemma RestOfBoth(excludedA: seq<Bytes>, q: Bytes, rest: seq<Bytes>, excludedB: seq<Bytes>)
    requires Both([], excludedA) == Both([[1] + q] + rest, excludedB)
    ensures Closed([q] + rest) + ([1] + Closed(excludedB)) == Closed(excludedA)
  {
    hide Closed;
    ClosedConcat([[1] + q], rest);
    ClosedConcat([q], rest);
    ClosedOne([1] + q);
    ClosedOne(q);
    BothOfNone(excludedA);
    WithoutFirst(Closed(excludedA), q + [0], Closed(rest), [1] + Closed(excludedB));
    assert [1] + q + [0] == [1] + (q + [0]);
  }

  lemma WithoutFirst(a: Bytes, b: Bytes, c: Bytes, d: Bytes)
    ensures [1] + a == ([1] + b) + c + d <==> a == b + c + d
  {
    assert ([1] + b) + c + d == [1] + (b + c + d);
    assert ([1] + a)[1..] == a && ([1] + (b + c + d))[1..] == b + c + d;
  }

  /** Lists of any length are read back, unless they can be taken for others. */
  lemma {:induction false} ListsAreRead(a: seq<Bytes>, excludedA: seq<Bytes>, b: seq<Bytes>, excludedB: seq<Bytes>)
    requires Unbroken(a) && Unbroken(excludedA) && Unbroken(b) && Unbroken(excludedB)
    requires Both(a, excludedA) == Both(b, excludedB) && !AmbiguousLists(a, excludedA)
    ensures a == b && excludedA == excludedB
    decreases |a|
  {
    if a == [] && b == [] {
      assert Both(a, excludedA)[1..] == Closed(excludedA) && Both(b, excludedB)[1..] == Closed(excludedB);
      ListIsRead(excludedA, excludedB);
    } else if a == [] {
      EndsSooner(excludedA, b, excludedB);
      assert false;
    } else if b == [] {
      EndsSooner(excludedB, a, excludedA);
      assert false;
    } else {
      PeelFirst(a, [1] + Closed(excludedA));
      PeelFirst(b, [1] + Closed(excludedB));
      FirstPartIsRead(a[0], b[0], Both(a[1..], excludedA), Both(b[1..], excludedB));
      assert forall i | 0 <= i < |a[1..]| :: a[1..][i] == a[i + 1];
      ListsAreRead(a[1..], excludedA, b[1..], excludedB);
      assert a == [a[0]] + a[1..] && b == [b[0]] + b[1..];
    }
  }

  lemma {:induction false} ListIsRead(a: seq<Bytes>, b: seq<Bytes>)
    requires Unbroken(a) && Unbroken(b) && Closed(a) == Closed(b)
    ensures a == b
    decreases |a|
  {
    assert Closed(a) + [] == Closed(a) && Closed(b) + [] == Closed(b);
    if a != [] && b != [] {
      PeelFirst(a, []);
      PeelFirst(b, []);
      assert Closed(a[1..]) + [] == Closed(a[1..]) && Closed(b[1..]) + [] == Closed(b[1..]);
      FirstPartIsRead(a[0], b[0], Closed(a[1..]), Closed(b[1..]));
      ListIsRead(a[1..], b[1..]);
      assert a == [a[0]] + a[1..] && b == [b[0]] + b[1..];
    }
  }

  lemma HashedParts(s: Source)
    ensures Hashed(s) == Closed(Scalars(s)) + (Both(s.included, s.excluded) + [1])
  {
    var a, b, c := Closed(Scalars(s)), Closed(s.included), Closed(s.excluded);
    assert a + (b + [1]) + (c + [1]) == a + ((b + ([1] + c)) + [1]);
  }

  /** A source without a zero byte that cannot be taken for another hashes the same bytes as another source
      without one exactly when the two are equal. */
  lemma HashedAgreesWithEqual(s: Source, o: Source)
    requires ZeroFree(s) && ZeroFree(o) && !Ambiguous(s)
    ensures Hashed(s) == Hashed(o) <==> Equal(s, o)
  {
    hide Closed;
    if Hashed(s) == Hashed(o) {
      HashedParts(s);
      HashedParts(o);
      var x, y := Both(s.included, s.excluded), Both(o.included, o.excluded);
      PartsAreRead(Scalars(s), Scalars(o), x + [1], y + [1]);
      assert x == (x + [1])[..|x|] && y == (y + [1])[..|y|];
      ListsAreRead(s.included, s.excluded, o.included, o.excluded);
      assert Scalars(s)[0] == Scalars(o)[0] && Scalars(s)[1] == Scalars(o)[1] && Scalars(s)[2] == Scalars(o)[2] &&
             Scalars(s)[3] == Scalars(o)[3] && Scalars(s)[4] == Scalars(o)[4] && Scalars(s)[5] == Scalars(o)[5] &&
             Scalars(s)[6] == Scalars(o)[6];
    }
    if Equal(s, o) {
      assert Scalars(s) == Scalars(o);
    }
  }

  // ---- Where a closing byte breaks it ----

  /** The closing byte can stand before the part that begins with one, or after the parts that follow it. */
  lemma BothShift(before: seq<Bytes>, part: Bytes, after: seq<Bytes>, first: Bytes, rest: seq<Bytes>)
    requires Marked(part)
    ensures Both(before + ([part] + after), [first] + rest) ==
            Both(before, [part[1..]] + (after + ([[1] + first] + rest)))
  {
    hide Closed;
    ClosedConcat(before, [part] + after);
    ClosedConcat([part], after);
    ClosedConcat([first], rest);
    ClosedConcat([part[1..]], after + ([[1] + first] + rest));
    ClosedConcat(after, [[1] + first] + rest);
    ClosedConcat([[1] + first], rest);
    ClosedOne(part);
    ClosedOne(first);
    ClosedOne(part[1..]);
    ClosedOne([1] + first);
    var a, b, c, q := Closed(before), Closed(after), Closed(rest), part[1..];
    assert part == [1] + q;
    assert a + (([1] + q + [0]) + b) + ([1] + ((first + [0]) + c)) ==
           a + ([1] + ((q + [0]) + (b + (([1] + first + [0]) + c))));
  }

  /** Sources with the same scalars and the same bytes of their lists. */
  lemma SameBytes(s: Source, o: Source)
    requires Scalars(s) == Scalars(o) && Both(s.included, s.excluded) == Both(o.included, o.excluded)
    ensures Hashed(s) == Hashed(o)
  {
    hide Both, Closed, Scalars;
    HashedParts(s);
    HashedParts(o);
  }

  lemma UnbrokenConcat(a: seq<Bytes>, b: seq<Bytes>)
    ensures Unbroken(a + b) <==> Unbroken(a) && Unbroken(b)
  {
    assert forall i | 0 <= i < |b| :: (a + b)[|a| + i] == b[i];
    assert forall i | 0 <= i < |a| :: (a + b)[i] == a[i];
  }

  lemma OneIsNoZero(part: Bytes)
    ensures Unbroken([[1] + part]) <==> Unbroken([part])
  {
    assert forall k | 0 <= k < |part| :: ([1] + part)[k + 1] == part[k];
    assert Unbroken([part]) <==> 0 !in [part][0];
    assert Unbroken([[1] + part]) <==> 0 !in [[1] + part][0];
  }

  /** The lists with the closing byte before the marked part, instead of after those that follow it. */
  lemma ShiftedLists(before: seq<Bytes>, part: Bytes, after: seq<Bytes>, first: Bytes, rest: seq<Bytes>)
    requires Marked(part)
    ensures var included, excluded := before + ([part] + after), [first] + rest;
            var shifted := [part[1..]] + (after + ([[1] + first] + rest));
            Both(included, excluded) == Both(before, shifted) &&
            (Unbroken(included) && Unbroken(excluded) <==> Unbroken(before) && Unbroken(shifted))
  {
    BothShift(before, part, after, first, rest);
    hide Both;
    UnbrokenConcat(before, [part] + after);
    UnbrokenConcat([part], after);
    UnbrokenConcat([first], rest);
    UnbrokenConcat([part[1..]], after + ([[1] + first] + rest));
    UnbrokenConcat(after, [[1] + first] + rest);
    UnbrokenConcat([[1] + first], rest);
    assert part == [1] + part[1..];
    OneIsNoZero(part[1..]);
    OneIsNoZero(first);
  }

  /** Of a marked inclusion, when there are exclusions: it can end the inclusions. */
  lemma InclusionEnds(s: Source, i: nat) returns (o: Source)
    requires i < |s.included| && Marked(s.included[i]) && s.excluded != [] && ZeroFree(s)
    ensures ZeroFree(o) && Hashed(o) == Hashed(s) && |o.included| < |s.included|
  {
    hide Hashed, Both, Unbroken;
    var before, part, after := s.included[..i], s.included[i], s.included[i + 1..];
    var first, rest := s.excluded[0], s.excluded[1..];
    assert s.included == before + ([part] + after) && s.excluded == [first] + rest;
    ShiftedLists(before, part, after, first, rest);
    o := s.(included := before, excluded := [part[1..]] + (after + ([[1] + first] + rest)));
    SameBytes(s, o);
  }

  /** Of a later marked exclusion: the inclusions can go on to it. */
  lemma InclusionsGoOn(s: Source, i: nat) returns (o: Source)
    requires 1 <= i < |s.excluded| && Marked(s.excluded[i]) && ZeroFree(s)
    ensures ZeroFree(o) && Hashed(o) == Hashed(s) && |o.included| > |s.included|
  {
    hide Hashed, Both, Unbroken;
    var first, between, part, rest := s.excluded[0], s.excluded[1..i], s.excluded[i], s.excluded[i + 1..];
    var begun := [1] + first;
    assert begun[1..] == first && [1] + part[1..] == part;
    assert s.excluded == [first] + (between + ([part] + rest));
    ShiftedLists(s.included, begun, between, part[1..], rest);
    o := s.(included := s.included + ([begun] + between), excluded := [part[1..]] + rest);
    SameBytes(s, o);
  }

  /** One that can be taken for another hashes the same bytes as some other source. */
  lemma AmbiguousCollides(s: Source) returns (o: Source)
    requires ZeroFree(s) && Ambiguous(s)
    ensures ZeroFree(o) && Hashed(o) == Hashed(s) && !Equal(s, o)
  {
    hide Hashed, ZeroFree;
    if s.excluded != [] && exists i | 0 <= i < |s.included| :: Marked(s.included[i]) {
      var i :| 0 <= i < |s.included| && Marked(s.included[i]);
      o := InclusionEnds(s, i);
    } else {
      var i :| 1 <= i < |s.excluded| && Marked(s.excluded[i]);
      o := InclusionsGoOn(s, i);
    }
  }

  /** The source of these strings, the first seven being its scalars and the rest inclusions. */
  function FromStrings(strings: seq<Bytes>, excluded: seq<Bytes>): Source
    requires |strings| >= 7
  {
    Source(strings[0], strings[1], strings[2], strings[3], strings[4], strings[5], strings[6], strings[7..], excluded, [])
  }

  lemma HashedStrings(strings: seq<Bytes>, excluded: seq<Bytes>)
    requires |strings| >= 7
    ensures Hashed(FromStrings(strings, excluded)) == Closed(strings) + ([1] + (Closed(excluded) + [1]))
  {
    hide Closed;
    var s := FromStrings(strings, excluded);
    assert strings == Scalars(s) + s.included;
    ClosedConcat(Scalars(s), s.included);
    var a, b, c := Closed(Scalars(s)), Closed(s.included), Closed(excluded) + [1];
    assert a + (b + [1]) + c == (a + b) + ([1] + c);
  }

  /** A string with a zero byte reads as two. */
  lemma SplitsInTwo(parts: seq<Bytes>, i: nat, k: nat)
    requires i < |parts| && k < |parts[i]| && parts[i][k] == 0
    ensures Closed(parts[..i] + [parts[i][..k], parts[i][k + 1..]] + parts[i + 1..]) == Closed(parts)
  {
    hide Closed;
    var a, b, x, y := parts[..i], parts[i + 1..], parts[i][..k], parts[i][k + 1..];
    assert parts == a + [parts[i]] + b;
    assert parts[i] == x + [0] + y;
    ClosedConcat(a + [parts[i]], b);
    ClosedConcat(a, [parts[i]]);
    ClosedConcat(a + [x, y], b);
    ClosedConcat(a, [x, y]);
    ClosedOne(parts[i]);
    ClosedTwo(x, y);
  }

  lemma ClosedTwo(a: Bytes, b: Bytes)
    ensures Closed([a, b]) == a + [0] + b + [0]
  {
    assert [a, b] == [a] + [b];
    ClosedConcat([a], [b]);
    ClosedOne(a);
    ClosedOne(b);
    assert a + [0] + (b + [0]) == a + [0] + b + [0];
  }

  /** And so does any source with a zero byte in a string. */
  lemma ZeroByteCollides(s: Source) returns (o: Source)
    requires !ZeroFree(s)
    ensures Hashed(o) == Hashed(s) && !Equal(s, o)
  {
    hide Closed, Hashed;
    var strings := Scalars(s) + s.included;
    assert s.(commit := []) == FromStrings(strings, s.excluded) by { assert strings[7..] == s.included; }
    HashedStrings(strings, s.excluded);
    HashedIgnoresCommit(s);
    if exists i | 0 <= i < |strings| :: 0 in strings[i] {
      var i :| 0 <= i < |strings| && 0 in strings[i];
      var k :| 0 <= k < |strings[i]| && strings[i][k] == 0;
      var split := strings[..i] + [strings[i][..k], strings[i][k + 1..]] + strings[i + 1..];
      SplitsInTwo(strings, i, k);
      o := FromStrings(split, s.excluded);
      HashedStrings(split, s.excluded);
      assert |o.included| == |s.included| + 1;
    } else {
      NoZeroInStrings(s);
      var i :| 0 <= i < |s.excluded| && 0 in s.excluded[i];
      var k :| 0 <= k < |s.excluded[i]| && s.excluded[i][k] == 0;
      var split := s.excluded[..i] + [s.excluded[i][..k], s.excluded[i][k + 1..]] + s.excluded[i + 1..];
      SplitsInTwo(s.excluded, i, k);
      o := FromStrings(strings, split);
      HashedStrings(strings, split);
      assert |o.excluded| == |s.excluded| + 1;
    }
  }

  lemma HashedIgnoresCommit(s: Source)
    ensures Hashed(s.(commit := [])) == Hashed(s)
  {
    assert Scalars(s.(commit := [])) == Scalars(s);
  }

  lemma NoZeroInStrings(s: Source)
    requires forall i | 0 <= i < |Scalars(s) + s.included| :: 0 !in (Scalars(s) + s.included)[i]
    ensures Unbroken(Scalars(s)) && Unbroken(s.included)
  {
    var strings := Scalars(s) + s.included;
    assert forall i | 0 <= i < 7 :: Scalars(s)[i] == strings[i];
    assert forall i | 0 <= i < |s.included| :: s.included[i] == strings[7 + i];
  }
}
