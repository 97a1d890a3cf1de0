/** Which repository file a progress bar counts (internal/adapter/hfwrap/labels.go). */
module Labels {
  import opened Numbers
  import opened Text

  datatype Entry = Entry(path: string, size: int)

  /** The files of the listing by the name a bar shows, or nothing when there is no name to show. */
  type Index = Option<map<string, seq<Entry>>>

  const TRUNCATED := "(\U{2026})"

  function AfterLast(s: string, c: char): string {
    if s == "" then ""
    else if s[|s| - 1] == c then ""
    else AfterLast(s[..|s| - 1], c) + [s[|s| - 1]]
  }

  function ReplaceAll(s: string, from: char, to: char): string {
    seq(|s|, i requires 0 <= i < |s| => if s[i] == from then to else s[i])
  }

  function WithoutPrefix(s: string, prefix: string): string {
    if prefix <= s then s[|prefix|..] else s
  }

  /** The file name a label and a repository path agree on. */
  function LabelBase(text: string): string {
    AfterLast(ReplaceAll(WithoutPrefix(TrimSpace(text), TRUNCATED), '\\', '/'), '/')
  }

  /** Whether a bar counting towards total can be the file of that size: within one percent of it. */
  predicate SizeMatches(want: int, total: int) {
    want > 0 && total > 0 && 100 * (if want < total then total - want else want - total) <= want
  }

  /** The listed files of that name, in order; one without a path has none. */
  function Named(entries: seq<Entry>, base: string): seq<Entry> {
    if entries == [] then []
    else
      var last := entries[|entries| - 1];
      Named(entries[..|entries| - 1], base) +
      if last.path != "" && LabelBase(last.path) == base then [last] else []
  }

  /** The index holds exactly the names there are, each with its files. */
  ghost predicate Indexes(index: map<string, seq<Entry>>, entries: seq<Entry>) {
    forall base :: (base in index <==> Named(entries, base) != [])
                   && (base in index ==> index[base] == Named(entries, base))
  }

  /** There is an index unless no file has a path. */
  ghost predicate IndexFor(index: Index, entries: seq<Entry>) {
    && (index.None? <==> forall i | 0 <= i < |entries| :: entries[i].path == "")
    && (index.Some? ==> Indexes(index.value, entries))
  }

  method NewLabelIndex(entries: seq<Entry>) returns (index: Index)
    ensures IndexFor(index, entries)
  {
    if |entries| == 0 {
      return None;
    }
    var byBase: map<string, seq<Entry>> := map[];
    for i := 0 to |entries|
      invariant Indexes(byBase, entries[..i])
      invariant byBase == map[] <==> forall k | 0 <= k < i :: entries[k].path == ""
    {
      var e := entries[i];
      assert entries[..i + 1][..i] == entries[..i];
      if e.path == "" {
        continue;
      }
      var base := LabelBase(e.path);
      byBase := byBase[base := (if base in byBase then byBase[base] else []) + [e]];
      assert base in byBase;
    }
    assert entries[..|entries|] == entries;
    if |byBase| == 0 {
      return None;
    }
    return Some(byBase);
  }

  function Matches(candidates: seq<Entry>, total: int): seq<Entry> {
    if candidates == [] then []
    else
      var last := candidates[|candidates| - 1];
      Matches(candidates[..|candidates| - 1], total) + if SizeMatches(last.size, total) then [last] else []
  }

  /** The path a bar belongs to, when the listing can tell. */
  function Lookup(index: Index, text: string, total: int): Option<string> {
    if index.None? || text == "" || LabelBase(text) !in index.value then None
    else
      var candidates := index.value[LabelBase(text)];
      if |candidates| == 1 then Some(candidates[0].path)
      else if |Matches(candidates, total)| == 1 then Some(Matches(candidates, total)[0].path)
      else None
  }

  method LookUp(index: Index, text: string, total: int) returns (path: Option<string>)
    ensures path == Lookup(index, text, total)
  {
    if index.None? || text == "" {
      return None;
    }
    var base := LabelBase(text);
    var candidates := if base in index.value then index.value[base] else [];
    if |candidates| == 0 {
      return None;
    } else if |candidates| == 1 {
      return Some(candidates[0].path);
    }
    var hit, matches := "", 0;
    for i := 0 to |candidates|
      invariant matches == |Matches(candidates[..i], total)|
      invariant matches > 0 ==> hit == Matches(candidates[..i], total)[matches - 1].path
    {
      assert candidates[..i + 1][..i] == candidates[..i];
      if SizeMatches(candidates[i].size, total) {
        hit := candidates[i].path;
        matches := matches + 1;
      }
    }
    assert candidates[..|candidates|] == candidates;
    if matches == 1 {
      return Some(hit);
    }
    return None;
  }

  // ---- What a name is ----

  /** A bar's total matches a size from 99 to 101 hundredths of it. */
  lemma SizeMatchesExactly(want: int, total: int)
    ensures SizeMatches(want, total) <==> want > 0 && total > 0 && 99 * want <= 100 * total <= 101 * want
  {
  }

  /** Of a listing, exactly the files of the name are found, in the order of the listing. */
  lemma {:induction false} NamedExactly(a: seq<Entry>, e: Entry, b: seq<Entry>, base: string)
    ensures Named(a + b, base) == Named(a, base) + Named(b, base)
    ensures Named([e], base) == if e.path != "" && LabelBase(e.path) == base then [e] else []
    decreases |b|
  {
    hide LabelBase;
    assert [e][..0] == [];
    if b == [] {
      assert a + b == a;
    } else {
      assert (a + b)[..|a + b| - 1] == a + b[..|b| - 1];
      NamedExactly(a, e, b[..|b| - 1], base);
    }
  }

  /** The name in a label or path is what follows its last separator, of either kind. */
  lemma LabelBaseIsName(dir: string, name: string)
    requires name != "" && '/' !in name && '\\' !in name && !IsSpace(name[|name| - 1])
    requires dir == "" || ((dir[|dir| - 1] == '/' || dir[|dir| - 1] == '\\') && !IsSpace(dir[0]))
    requires dir == "" ==> !IsSpace(name[0])
    requires !(TRUNCATED <= dir + name)
    ensures LabelBase(dir + name) == name && (dir != "" ==> LabelBase(TRUNCATED + dir + name) == name)
  {
    hide IsSpace;
    var text := dir + name;
    assert text[|text| - 1] == name[|name| - 1];
    TrimmedStays(text);
    NameAfterLast(dir, name);
    if dir != "" {
      var shortened := TRUNCATED + dir + name;
      assert shortened[|shortened| - 1] == name[|name| - 1] && shortened[|TRUNCATED|..] == text;
      SolidStart();
      TrimmedStays(shortened);
    }
  }

  lemma SolidStart()
    ensures TRUNCATED != "" && !IsSpace(TRUNCATED[0])
  {
  }

  lemma NameAfterLast(dir: string, name: string)
    requires '/' !in name && '\\' !in name
    requires dir == "" || dir[|dir| - 1] == '/' || dir[|dir| - 1] == '\\'
    ensures AfterLast(ReplaceAll(dir + name, '\\', '/'), '/') == name
  {
    var r := ReplaceAll(dir, '\\', '/');
    assert ReplaceAll(dir + name, '\\', '/') == r + name;
    AfterLastStops(r, name, '/');
  }

  lemma {:induction false} AfterLastStops(front: string, name: string, c: char)
    requires c !in name && (front == "" || front[|front| - 1] == c)
    ensures AfterLast(front + name, c) == name
    decreases |name|
  {
    if name == "" {
      assert front + name == front;
    } else {
      var last := |name| - 1;
      assert (front + name)[..|front + name| - 1] == front + name[..last];
      AfterLastStops(front, name[..last], c);
      assert name == name[..last] + [name[last]];
    }
  }

  // ---- What a lookup finds ----

  /** Entry k is the one a bar of that name and total can be: the only one of the name, or the only one
      of several that has the size. */
  predicate OnlyFile(named: seq<Entry>, total: int, k: int) {
    && 0 <= k < |named|
    && (|named| == 1 || SizeMatches(named[k].size, total))
    && (|named| == 1 || forall j | 0 <= j < |named| && j != k :: !SizeMatches(named[j].size, total))
  }

  lemma {:induction false} MatchesAreExactly(candidates: seq<Entry>, total: int)
    ensures |Matches(candidates, total)| == 0 <==>
              forall j | 0 <= j < |candidates| :: !SizeMatches(candidates[j].size, total)
    ensures |Matches(candidates, total)| == 1 ==>
              exists k | 0 <= k < |candidates| ::
                SizeMatches(candidates[k].size, total) && Matches(candidates, total)[0] == candidates[k] &&
                forall j | 0 <= j < |candidates| && j != k :: !SizeMatches(candidates[j].size, total)
    ensures |Matches(candidates, total)| > 1 ==>
              exists j, k | 0 <= j < k < |candidates| ::
                SizeMatches(candidates[j].size, total) && SizeMatches(candidates[k].size, total)
  {
    hide SizeMatches;
    if candidates != [] {
      var n := |candidates| - 1;
      var before := candidates[..n];
      MatchesAreExactly(before, total);
      assert forall j | 0 <= j < n :: before[j] == candidates[j];
      if |Matches(before, total)| == 1 {
        var k :| 0 <= k < n && SizeMatches(before[k].size, total) && Matches(before, total)[0] == before[k] &&
                 forall j | 0 <= j < n && j != k :: !SizeMatches(before[j].size, total);
        assert candidates[k] == before[k];
      }
      assert SizeMatches(candidates[n].size, total) || !SizeMatches(candidates[n].size, total);
    }
  }

  lemma {:induction false} NamedAreListed(entries: seq<Entry>, base: string, k: nat)
    requires k < |Named(entries, base)|
    ensures Named(entries, base)[k] in entries && LabelBase(Named(entries, base)[k].path) == base
  {
    hide LabelBase;
    var n := |entries| - 1;
    if k < |Named(entries[..n], base)| {
      NamedAreListed(entries[..n], base, k);
    }
  }

  lemma {:induction false} NothingNamed(entries: seq<Entry>, base: string)
    requires forall i | 0 <= i < |entries| :: entries[i].path == ""
    ensures Named(entries, base) == []
  {
    if entries != [] {
      NothingNamed(entries[..|entries| - 1], base);
    }
  }

  /** The path found among files of one name. */
  function Found(named: seq<Entry>, total: int): Option<string> {
    if |named| == 1 then Some(named[0].path)
    else if |Matches(named, total)| == 1 then Some(Matches(named, total)[0].path)
    else None
  }

  lemma FoundIsOnlyFile(named: seq<Entry>, total: int) returns (k: int)
    ensures Found(named, total).Some? <==> OnlyFile(named, total, k)
    ensures Found(named, total).Some? ==> Found(named, total) == Some(named[k].path)
    ensures forall j :: OnlyFile(named, total, j) ==> Found(named, total).Some? && j == k
  {
    hide SizeMatches, Matches;
    MatchesAreExactly(named, total);
    k := if |named| == 1 then 0 else -1;
    if |named| != 1 && |Matches(named, total)| == 1 {
      k :| 0 <= k < |named| && SizeMatches(named[k].size, total) && Matches(named, total)[0] == named[k] &&
           forall j | 0 <= j < |named| && j != k :: !SizeMatches(named[j].size, total);
    }
  }

  /** A bar is named exactly when one listed file of its name can be it, and then after that file. */
  lemma LookupFindsOnlyFile(entries: seq<Entry>, index: Index, text: string, total: int) returns (k: int)
    requires IndexFor(index, entries)
    ensures var named := Named(entries, LabelBase(text));
            && (Lookup(index, text, total).Some? <==> text != "" && OnlyFile(named, total, k))
            && (forall j | OnlyFile(named, total, j) && text != "" ::
                  j == k && Lookup(index, text, total) == Some(named[j].path))
            && (forall j | 0 <= j < |named| :: named[j] in entries && LabelBase(named[j].path) == LabelBase(text))
  {
    hide LabelBase, Named, Matches, OnlyFile;
    var named := Named(entries, LabelBase(text));
    forall j | 0 <= j < |named|
      ensures named[j] in entries && LabelBase(named[j].path) == LabelBase(text)
    {
      NamedAreListed(entries, LabelBase(text), j);
    }
    if index.None? {
      NothingNamed(entries, LabelBase(text));
    }
    assert Matches([], total) == [] by { MatchesAreExactly([], total); }
    k := FoundIsOnlyFile(named, total);
    assert text != "" ==> Lookup(index, text, total) == Found(named, total);
  }

  // ---- Shortened labels ----

  lemma {:induction false} AfterLastOfConcat(a: string, b: string, c: char)
    requires c in b
    ensures AfterLast(a + b, c) == AfterLast(b, c)
    decreases |b|
  {
    var s := a + b;
    assert s[|s| - 1] == b[|b| - 1];
    if b[|b| - 1] != c {
      assert s[..|s| - 1] == a + b[..|b| - 1];
      assert b == b[..|b| - 1] + [b[|b| - 1]];
      AfterLastOfConcat(a, b[..|b| - 1], c);
    }
  }

  /** A label shortened to the end of a path keeps the path's name as long as a separator is left in it. */
  lemma ShortenedLabelKeepsName(front: string, rest: string)
    requires rest != "" && !IsSpace(rest[|rest| - 1]) && ('/' in rest || '\\' in rest)
    requires front + rest != "" && !IsSpace((front + rest)[0]) && !(TRUNCATED <= front + rest)
    ensures LabelBase(TRUNCATED + rest) == LabelBase(front + rest)
  {
    var path, shortened := front + rest, TRUNCATED + rest;
    assert path[|path| - 1] == rest[|rest| - 1] == shortened[|shortened| - 1];
    TrimmedStays(path);
    TrimmedStays(shortened);
    assert shortened[|TRUNCATED|..] == rest;
    var r := ReplaceAll(rest, '\\', '/');
    assert ReplaceAll(path, '\\', '/') == ReplaceAll(front, '\\', '/') + r;
    var k :| 0 <= k < |rest| && (rest[k] == '/' || rest[k] == '\\');
    assert r[k] == '/';
    AfterLastOfConcat(ReplaceAll(front, '\\', '/'), r, '/');
  }
}
