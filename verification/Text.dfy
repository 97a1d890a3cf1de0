/** The pieces of Go's strings and unicode packages the components lean on.
    A text is a sequence of Unicode scalar values. */
module Text {

  /** unicode.IsSpace. */
  predicate IsSpace(c: char) {
    || c == ' ' || '\t' <= c <= '\r' || c == '\U{0085}' || c == '\U{00A0}' || c == '\U{1680}'
    || '\U{2000}' <= c <= '\U{200A}' || c == '\U{2028}' || c == '\U{2029}'
    || c == '\U{202F}' || c == '\U{205F}' || c == '\U{3000}'
  }

  predicate Blank(s: string) {
    forall i | 0 <= i < |s| :: IsSpace(s[i])
  }

  predicate SpaceFree(s: string) {
    forall i | 0 <= i < |s| :: !IsSpace(s[i])
  }

  /** Neither end is a space, so trimming leaves the text alone. */
  predicate Trimmed(s: string) {
    s != "" ==> !IsSpace(s[0]) && !IsSpace(s[|s| - 1])
  }

  function TrimLeft(s: string): string {
    if s != "" && IsSpace(s[0]) then TrimLeft(s[1..]) else s
  }

  function TrimRight(s: string): string {
    if s != "" && IsSpace(s[|s| - 1]) then TrimRight(s[..|s| - 1]) else s
  }

  function TrimSpace(s: string): string {
    TrimRight(TrimLeft(s))
  }

  /** strings.TrimLeft with a set of characters. */
  function TrimLeftSet(s: string, cut: set<char>): string {
    if s != "" && s[0] in cut then TrimLeftSet(s[1..], cut) else s
  }

  /** The length of the part of s before its first c: all of s when there is none. */
  function IndexOf(s: string, c: char): (n: nat)
    ensures n <= |s| && (n < |s| ==> s[n] == c)
    ensures forall i | 0 <= i < n :: s[i] != c
  {
    if s == "" || s[0] == c then 0 else 1 + IndexOf(s[1..], c)
  }

  /** strings.Split on one character. */
  function SplitOn(s: string, c: char): (parts: seq<string>)
    ensures |parts| > 0
    decreases |s|
  {
    var n := IndexOf(s, c);
    if n == |s| then [s] else [s[..n]] + SplitOn(s[n + 1..], c)
  }

  /** The length of the leading run of characters that are not spaces. */
  function WordLength(s: string): (n: nat)
    ensures n <= |s| && SpaceFree(s[..n]) && (n < |s| ==> IsSpace(s[n]))
  {
    if s == "" || IsSpace(s[0]) then 0 else 1 + WordLength(s[1..])
  }

  /** strings.Fields. */
  function Fields(s: string): seq<string>
    decreases |s|
  {
    if s == "" then []
    else if IsSpace(s[0]) then Fields(s[1..])
    else [s[..WordLength(s)]] + Fields(s[WordLength(s)..])
  }

  /** strings.Join with a single space. */
  function JoinWords(words: seq<string>): string {
    if words == [] then ""
    else if |words| == 1 then words[0]
    else words[0] + " " + JoinWords(words[1..])
  }

  lemma {:induction false} TrimLeftSuffix(s: string)
    ensures |TrimLeft(s)| <= |s| && TrimLeft(s) == s[|s| - |TrimLeft(s)|..]
    ensures forall i | 0 <= i < |s| - |TrimLeft(s)| :: IsSpace(s[i])
    ensures TrimLeft(s) != "" ==> !IsSpace(TrimLeft(s)[0])
  {
    hide IsSpace;
    if s != "" && IsSpace(s[0]) {
      var t := TrimLeft(s[1..]);
      assert TrimLeft(s) == t;
      hide TrimLeft;
      TrimLeftSuffix(s[1..]);
      SuffixNext(s, |t|);
    } else {
      assert TrimLeft(s) == s == s[0..];
    }
  }

  lemma SuffixNext(s: string, n: nat)
    requires s != "" && n < |s| && IsSpace(s[0])
    requires forall i | 0 <= i < |s[1..]| - n :: IsSpace(s[1..][i])
    ensures s[1..][|s[1..]| - n..] == s[|s| - n..]
    ensures forall i | 0 <= i < |s| - n :: IsSpace(s[i])
  {
    hide IsSpace;
    assert forall i | 0 < i < |s| :: s[i] == s[1..][i - 1];
  }

  lemma {:induction false} TrimRightPrefix(s: string)
    ensures |TrimRight(s)| <= |s| && TrimRight(s) == s[..|TrimRight(s)|]
    ensures forall i | |TrimRight(s)| <= i < |s| :: IsSpace(s[i])
    ensures TrimRight(s) != "" ==> !IsSpace(TrimRight(s)[|TrimRight(s)| - 1])
  {
    hide IsSpace;
    if s != "" && IsSpace(s[|s| - 1]) {
      var front := s[..|s| - 1];
      var t := TrimRight(front);
      assert TrimRight(s) == t;
      hide TrimRight;
      TrimRightPrefix(front);
      assert front[..|t|] == s[..|t|];
      assert forall i | 0 <= i < |front| :: front[i] == s[i];
    } else {
      assert TrimRight(s) == s == s[..|s|];
    }
  }

  /** Trimming leaves the middle of the text, with no space at either end. */
  lemma TrimSpaceTrims(s: string)
    ensures Trimmed(TrimSpace(s))
    ensures exists pre, post :: Blank(pre) && Blank(post) && s == pre + TrimSpace(s) + post
  {
    TrimLeftSuffix(s);
    var t := TrimLeft(s);
    TrimRightPrefix(t);
    var pre, post := s[..|s| - |t|], t[|TrimRight(t)|..];
    assert Blank(pre) && Blank(post) && s == pre + TrimSpace(s) + post;
  }

  lemma TrimmedStays(s: string)
    requires Trimmed(s)
    ensures TrimLeft(s) == s && TrimRight(s) == s && TrimSpace(s) == s
  {
  }

  /** A text with one character that is not a space does not trim to nothing. */
  lemma TrimSpaceKeeps(s: string, i: nat)
    requires i < |s| && !IsSpace(s[i])
    ensures TrimSpace(s) != ""
  {
    TrimLeftSuffix(s);
    var t := TrimLeft(s);
    var k := |s| - |t|;
    assert t[i - k] == s[i];
    TrimRightPrefix(t);
    assert t[0..] == t;
  }

  lemma {:induction false} IndexOfPrefix(a: string, b: string, c: char)
    requires c !in a
    ensures IndexOf(a + [c] + b, c) == |a|
  {
    if a == "" {
      assert (a + [c] + b)[0] == c;
    } else {
      assert a[0] in a;
      assert (a + [c] + b)[1..] == a[1..] + [c] + b;
      IndexOfPrefix(a[1..], b, c);
    }
  }

  /** A line, its terminator and the rest split into the line and the lines of the rest. */
  lemma SplitLine(a: string, b: string, c: char)
    requires c !in a
    ensures SplitOn(a + [c] + b, c) == [a] + SplitOn(b, c)
  {
    IndexOfPrefix(a, b, c);
    var s := a + [c] + b;
    assert s[..|a|] == a && s[|a| + 1..] == b;
  }

  /** No part of a split text holds the separator. */
  lemma {:induction false} SplitHasNoSeparator(s: string, c: char)
    ensures forall i | 0 <= i < |SplitOn(s, c)| :: c !in SplitOn(s, c)[i]
    decreases |s|
  {
    var n := IndexOf(s, c);
    if n < |s| {
      SplitHasNoSeparator(s[n + 1..], c);
    }
  }

  lemma TrimSpaceAddsNothing(s: string, c: char)
    ensures c in TrimSpace(s) ==> c in s
  {
    hide IsSpace;
    TrimLeftSuffix(s);
    TrimRightPrefix(TrimLeft(s));
  }

  predicate Words(words: seq<string>) {
    forall i | 0 <= i < |words| :: words[i] != "" && SpaceFree(words[i])
  }

  lemma {:induction false} FieldsAreWords(s: string)
    ensures Words(Fields(s))
    decreases |s|
  {
    if s == "" {
    } else if IsSpace(s[0]) {
      FieldsAreWords(s[1..]);
    } else {
      FieldsAreWords(s[WordLength(s)..]);
    }
  }

  lemma {:induction false} WordLengthPrefix(w: string, rest: string)
    requires SpaceFree(w) && (rest != "" ==> IsSpace(rest[0]))
    ensures WordLength(w + rest) == |w|
  {
    if w == "" {
      assert w + rest == rest;
    } else {
      assert (w + rest)[1..] == w[1..] + rest;
      WordLengthPrefix(w[1..], rest);
    }
  }

  lemma BlankIsSpace()
    ensures IsSpace(' ')
  {
  }

  lemma FieldsOfNothing()
    ensures Fields("") == []
  {
  }

  lemma FieldsOfBlank(rest: string)
    ensures Fields(" " + rest) == Fields(rest)
  {
    assert (" " + rest)[1..] == rest;
  }

  /** A word up to the next space comes first. */
  lemma FieldsOfWord(w: string, rest: string)
    requires w != "" && SpaceFree(w) && (rest != "" ==> IsSpace(rest[0]))
    ensures Fields(w + rest) == [w] + Fields(rest)
  {
    hide IsSpace;
    WordLengthPrefix(w, rest);
    assert (w + rest)[0] == w[0] && (w + rest)[..|w|] == w && (w + rest)[|w|..] == rest;
  }

  /** Joining words with spaces and splitting again gives the words back. */
  lemma {:induction false} FieldsOfJoin(words: seq<string>)
    requires Words(words)
    ensures Fields(JoinWords(words)) == words
  {
    hide IsSpace, Fields, SpaceFree;
    if words == [] {
      FieldsOfNothing();
    } else if |words| == 1 {
      FieldsOfNothing();
      FieldsOfWord(words[0], "");
      assert words[0] + "" == words[0] && words == [words[0]];
    } else {
      var rest := JoinWords(words[1..]);
      BlankIsSpace();
      FieldsOfWord(words[0], " " + rest);
      FieldsOfBlank(rest);
      FieldsOfJoin(words[1..]);
      assert words[0] + " " + rest == words[0] + (" " + rest);
      assert words == [words[0]] + words[1..];
    }
  }

  lemma {:induction false} JoinHasNoLineBreak(words: seq<string>)
    requires Words(words)
    ensures '\n' !in JoinWords(words)
    ensures Trimmed(JoinWords(words)) && (words != [] ==> JoinWords(words) != "")
  {
    if |words| > 1 {
      JoinHasNoLineBreak(words[1..]);
      var rest := JoinWords(words[1..]);
      assert rest != "";
      var j := JoinWords(words);
      assert j == words[0] + (" " + rest);
      assert j[|j| - 1] == rest[|rest| - 1];
      forall i | 0 <= i < |j| ensures j[i] != '\n' {
        if i > |words[0]| { assert j[i] == rest[i - |words[0]| - 1]; }
      }
    } else if |words| == 1 {
      assert JoinWords(words) == words[0];
    }
  }
}
