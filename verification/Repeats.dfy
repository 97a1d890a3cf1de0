/** The guard against a decoder stuck in a loop (internal/translate/repeats.go):
    a text is cut into tokens, a run of equal blocks of tokens is reduced to its
    first block, and what is left is joined again. */
module Repeats {
  import opened Text

  /** A word or one ideograph, with the space that followed it. */
  datatype Token = Token(text: string, sep: string)

  const REPEAT_MAX_BLOCK: nat := 40
  const REPEAT_MIN_SHORT: nat := 6
  const REPEAT_MIN_LONG: nat := 3

  /** How many copies of an n-token block make a loop. */
  function Need(n: nat): nat {
    if n < 3 then REPEAT_MIN_SHORT else REPEAT_MIN_LONG
  }

  /** The number of tokens in that many copies. */
  function Span(n: nat): (len: nat)
    ensures len == n * Need(n)
  {
    if n < 3 then 6 * n else 3 * n
  }

  // ---- Tokens of a text ----

  /** What the scanner has after a prefix: the finished tokens and the word it is in. */
  datatype Scan = Scan(out: seq<Token>, word: string) {
    function Flushed(): seq<Token> {
      if word != "" then out + [Token(word, "")] else out
    }
  }

  function ScanNext(scan: Scan, r: char, ideograph: char -> bool): Scan {
    if IsSpace(r) then
      var out := scan.Flushed();
      if out == [] then Scan([], "")
      else
        var last := out[|out| - 1];
        Scan(out[..|out| - 1] + [Token(last.text, last.sep + [r])], "")
    else if ideograph(r) then Scan(scan.Flushed() + [Token([r], "")], "")
    else Scan(scan.out, scan.word + [r])
  }

  function Scanned(s: string, ideograph: char -> bool): Scan {
    if s == "" then Scan([], "")
    else ScanNext(Scanned(s[..|s| - 1], ideograph), s[|s| - 1], ideograph)
  }

  function TokensOf(s: string, ideograph: char -> bool): seq<Token> {
    Scanned(s, ideograph).Flushed()
  }

  function Joined(toks: seq<Token>): string {
    if toks == [] then ""
    else Joined(toks[..|toks| - 1]) + toks[|toks| - 1].text + toks[|toks| - 1].sep
  }

  predicate IsWord(s: string, ideograph: char -> bool) {
    s != "" && SpaceFree(s) && forall i | 0 <= i < |s| :: !ideograph(s[i])
  }

  predicate IsGlyph(s: string, ideograph: char -> bool) {
    |s| == 1 && !IsSpace(s[0]) && ideograph(s[0])
  }

  /** Tokens are whole words or single ideographs, separated by nothing but space,
      and two words never stand together without any. */
  predicate WellCut(toks: seq<Token>, ideograph: char -> bool) {
    && (forall i | 0 <= i < |toks| ::
          (IsWord(toks[i].text, ideograph) || IsGlyph(toks[i].text, ideograph)) && Blank(toks[i].sep))
    && (forall i | 0 <= i < |toks| - 1 ::
          IsWord(toks[i].text, ideograph) && IsWord(toks[i + 1].text, ideograph) ==> toks[i].sep != "")
  }

  lemma JoinedSnoc(toks: seq<Token>, t: Token)
    ensures Joined(toks + [t]) == Joined(toks) + t.text + t.sep
  {
    assert (toks + [t])[..|toks|] == toks;
  }

  lemma JoinedFlushed(scan: Scan)
    ensures Joined(scan.Flushed()) == Joined(scan.out) + scan.word
  {
    if scan.word != "" {
      JoinedSnoc(scan.out, Token(scan.word, ""));
    }
  }

  lemma {:induction false} TrimLeftSnoc(s: string, c: char)
    ensures TrimLeft(s + [c]) == if TrimLeft(s) == "" && IsSpace(c) then "" else TrimLeft(s) + [c]
  {
    if s == "" {
      assert s + [c] == [c];
    } else {
      assert (s + [c])[1..] == s[1..] + [c];
      if IsSpace(s[0]) {
        TrimLeftSnoc(s[1..], c);
      }
    }
  }

  ghost predicate ScanOk(scan: Scan, s: string, ideograph: char -> bool) {
    && Joined(scan.out) + scan.word == TrimLeft(s)
    && WellCut(scan.out, ideograph)
    && (scan.word != "" ==> IsWord(scan.word, ideograph))
    && (scan.out != [] && IsWord(scan.out[|scan.out| - 1].text, ideograph)
        ==> scan.out[|scan.out| - 1].sep != "")
  }

  lemma WellCutSnoc(toks: seq<Token>, t: Token, ideograph: char -> bool)
    requires WellCut(toks, ideograph) && Blank(t.sep)
    requires IsWord(t.text, ideograph) || IsGlyph(t.text, ideograph)
    requires toks != [] && IsWord(toks[|toks| - 1].text, ideograph) && IsWord(t.text, ideograph)
             ==> toks[|toks| - 1].sep != ""
    ensures WellCut(toks + [t], ideograph)
  {
    var more := toks + [t];
    forall i | 0 <= i < |more| - 1 && IsWord(more[i].text, ideograph) && IsWord(more[i + 1].text, ideograph)
      ensures more[i].sep != ""
    {
      assert i < |toks| - 1 ==> more[i + 1] == toks[i + 1];
    }
  }

  lemma WellCutLast(front: seq<Token>, t: Token, ideograph: char -> bool)
    requires WellCut(front + [t], ideograph)
    ensures WellCut(front, ideograph) && Blank(t.sep)
    ensures IsWord(t.text, ideograph) || IsGlyph(t.text, ideograph)
    ensures front != [] && IsWord(front[|front| - 1].text, ideograph) && IsWord(t.text, ideograph)
            ==> front[|front| - 1].sep != ""
  {
    var toks := front + [t];
    assert toks[|front|] == t;
    forall i | 0 <= i < |front|
      ensures toks[i] == front[i]
    {
    }
  }

  lemma TokenSays(toks: seq<Token>, k: nat, ideograph: char -> bool)
    requires WellCut(toks, ideograph) && k < |toks|
    ensures toks[k].text != "" && SpaceFree(toks[k].text)
  {
  }

  lemma FlushedOk(scan: Scan, s: string, ideograph: char -> bool)
    requires ScanOk(scan, s, ideograph)
    ensures Joined(scan.Flushed()) == TrimLeft(s) && WellCut(scan.Flushed(), ideograph)
  {
    JoinedFlushed(scan);
    if scan.word != "" {
      WellCutSnoc(scan.out, Token(scan.word, ""), ideograph);
    }
  }

  lemma SepGrows(sep: string, r: char)
    requires Blank(sep) && IsSpace(r)
    ensures Blank(sep + [r])
  {
  }

  /** A space joins the token before it. */
  lemma SpaceMerges(front: seq<Token>, last: Token, r: char, ideograph: char -> bool)
    requires WellCut(front + [last], ideograph) && IsSpace(r)
    ensures var spaced := Token(last.text, last.sep + [r]);
            WellCut(front + [spaced], ideograph)
            && Joined(front + [spaced]) == Joined(front + [last]) + [r]
    ensures Joined(front + [last]) != ""
  {
    hide WellCut, Joined, Blank, IsSpace, IsWord, IsGlyph;
    TokenSays(front + [last], |front|, ideograph);
    WellCutLast(front, last, ideograph);
    SepGrows(last.sep, r);
    var spaced := Token(last.text, last.sep + [r]);
    JoinedSnoc(front, last);
    JoinedSnoc(front, spaced);
    WellCutSnoc(front, spaced, ideograph);
  }

  lemma ScanOfSpace(scan: Scan, r: char, ideograph: char -> bool)
    requires IsSpace(r)
    ensures scan.Flushed() == [] ==> ScanNext(scan, r, ideograph) == Scan([], "")
    ensures scan.Flushed() != [] ==>
              var flushed := scan.Flushed();
              var front, last := flushed[..|flushed| - 1], flushed[|flushed| - 1];
              ScanNext(scan, r, ideograph) == Scan(front + [Token(last.text, last.sep + [r])], "")
  {
    hide IsSpace, Scan.Flushed;
  }

  lemma ScanSpaceSound(scan: Scan, s: string, r: char, ideograph: char -> bool)
    requires ScanOk(scan, s, ideograph) && IsSpace(r)
    ensures ScanOk(ScanNext(scan, r, ideograph), s + [r], ideograph)
  {
    TrimLeftSnoc(s, r);
    FlushedOk(scan, s, ideograph);
    ScanOfSpace(scan, r, ideograph);
    hide IsSpace, TrimLeft, WellCut, IsWord, IsGlyph, ScanNext, Scan.Flushed;
    var flushed := scan.Flushed();
    if flushed != [] {
      hide Joined;
      var front, last := flushed[..|flushed| - 1], flushed[|flushed| - 1];
      assert front + [last] == flushed;
      SpaceMerges(front, last, r, ideograph);
      var out := front + [Token(last.text, last.sep + [r])];
      assert out[|out| - 1].sep != "";
    } else {
      assert WellCut([], ideograph);
    }
  }

  lemma ScanGlyphSound(scan: Scan, s: string, r: char, ideograph: char -> bool)
    requires ScanOk(scan, s, ideograph) && !IsSpace(r) && ideograph(r)
    ensures ScanOk(ScanNext(scan, r, ideograph), s + [r], ideograph)
  {
    hide IsSpace, TrimLeft;
    TrimLeftSnoc(s, r);
    FlushedOk(scan, s, ideograph);
    var flushed, glyph := scan.Flushed(), Token([r], "");
    JoinedSnoc(flushed, glyph);
    assert [r][0] == r && !IsWord([r], ideograph) && IsGlyph([r], ideograph);
    WellCutSnoc(flushed, glyph, ideograph);
    assert ScanNext(scan, r, ideograph) == Scan(flushed + [glyph], "");
  }

  lemma WordGrows(word: string, r: char, ideograph: char -> bool)
    requires word != "" ==> IsWord(word, ideograph)
    requires !IsSpace(r) && !ideograph(r)
    ensures IsWord(word + [r], ideograph)
  {
    hide IsSpace;
  }

  lemma ScanWordSound(scan: Scan, s: string, r: char, ideograph: char -> bool)
    requires ScanOk(scan, s, ideograph) && !IsSpace(r) && !ideograph(r)
    ensures ScanOk(ScanNext(scan, r, ideograph), s + [r], ideograph)
  {
    hide IsSpace, TrimLeft, WellCut, Joined;
    TrimLeftSnoc(s, r);
    WordGrows(scan.word, r, ideograph);
    assert ScanNext(scan, r, ideograph) == Scan(scan.out, scan.word + [r]);
    hide IsWord, ScanNext;
    assert Joined(scan.out) + (scan.word + [r]) == Joined(scan.out) + scan.word + [r];
  }

  lemma {:induction false} ScannedSound(s: string, ideograph: char -> bool)
    ensures ScanOk(Scanned(s, ideograph), s, ideograph)
  {
    hide ScanNext, IsSpace;
    if s != "" {
      ScannedSound(s[..|s| - 1], ideograph);
      var scan, r := Scanned(s[..|s| - 1], ideograph), s[|s| - 1];
      if IsSpace(r) {
        ScanSpaceSound(scan, s[..|s| - 1], r, ideograph);
      } else if ideograph(r) {
        ScanGlyphSound(scan, s[..|s| - 1], r, ideograph);
      } else {
        ScanWordSound(scan, s[..|s| - 1], r, ideograph);
      }
      assert s[..|s| - 1] + [s[|s| - 1]] == s;
    }
  }

  /** Nothing is lost by cutting: the tokens joined again are the text without its
      leading space, and each token is a word or one ideograph. */
  lemma JoinOfTokens(s: string, ideograph: char -> bool)
    ensures Joined(TokensOf(s, ideograph)) == TrimLeft(s)
    ensures WellCut(TokensOf(s, ideograph), ideograph)
  {
    ScannedSound(s, ideograph);
    FlushedOk(Scanned(s, ideograph), s, ideograph);
  }

  method Tokenize(text: string, ideograph: char -> bool) returns (out: seq<Token>)
    ensures out == TokensOf(text, ideograph)
    ensures Joined(out) == TrimLeft(text) && WellCut(out, ideograph)
  {
    hide IsSpace, Joined, TrimLeft, WellCut;
    var word := "";
    out := [];
    for i := 0 to |text|
      invariant Scan(out, word) == Scanned(text[..i], ideograph)
    {
      var r := text[i];
      assert text[..i + 1][..i] == text[..i];
      if IsSpace(r) {
        if word != "" {
          out, word := out + [Token(word, "")], "";
        }
        if out != [] {
          var last := out[|out| - 1];
          out := out[..|out| - 1] + [Token(last.text, last.sep + [r])];
        }
      } else if ideograph(r) {
        if word != "" {
          out, word := out + [Token(word, "")], "";
        }
        out := out + [Token([r], "")];
      } else {
        word := word + [r];
      }
    }
    assert text[..|text|] == text;
    JoinOfTokens(text, ideograph);
    if word != "" {
      out := out + [Token(word, "")];
    }
  }

  method JoinTokens(toks: seq<Token>) returns (s: string)
    ensures s == Joined(toks)
  {
    s := "";
    for i := 0 to |toks|
      invariant s == Joined(toks[..i])
    {
      assert toks[..i + 1][..i] == toks[..i];
      s := s + toks[i].text + toks[i].sep;
    }
    assert toks[..|toks|] == toks;
  }

  // ---- Runs of equal blocks ----

  /** The token at x reads as the one n places on. */
  predicate Recurs(toks: seq<Token>, x: nat, n: nat)
    requires x + n < |toks|
  {
    toks[x].text == toks[x + n].text
  }

  /** The len tokens at i repeat every n tokens: for len == c * n, c equal blocks in a row. */
  predicate Run(toks: seq<Token>, i: nat, n: nat, len: nat) {
    i + len <= |toks| && forall x | i <= x && x + n < i + len :: Recurs(toks, x, n)
  }

  /** No place holds a loop of n-token blocks. */
  ghost predicate RunFree(toks: seq<Token>, n: nat) {
    forall i: nat :: !Run(toks, i, n, Span(n))
  }

  predicate SameText(toks: seq<Token>, a: nat, b: nat, n: nat)
    requires a + n <= |toks| && b + n <= |toks|
  {
    forall x | a <= x < a + n :: toks[x].text == toks[x + b - a].text
  }

  /** d is a whole number of blocks. */
  predicate Aligned(d: nat, n: nat)
    requires n > 0
  {
    d == 0 || (d >= n && Aligned(d - n, n))
  }

  /** Where the copies of the block at i end, counting on from e. */
  function LoopEnd(toks: seq<Token>, i: nat, n: nat, e: nat): (r: nat)
    requires n > 0 && i + n <= e <= |toks|
    ensures e <= r <= |toks|
    decreases |toks| - e
  {
    if e + n <= |toks| && SameText(toks, i, e, n) then LoopEnd(toks, i, n, e + n) else e
  }

  /** In a run of whole blocks, the last block reads as the first. */
  lemma {:induction false} RunRepeats(toks: seq<Token>, i: nat, n: nat, len: nat, x: nat)
    requires n > 0 && len >= n && Aligned(len, n) && Run(toks, i, n, len) && i <= x < i + n
    ensures toks[x].text == toks[x + len - n].text
    decreases len
  {
    if len > n {
      RunRepeats(toks, i, n, len - n, x);
      assert Recurs(toks, x + len - n - n, n);
    }
  }

  /** The run goes on for one more block exactly when the next block reads as the first. */
  lemma RunGrows(toks: seq<Token>, i: nat, n: nat, len: nat)
    requires n > 0 && len >= n && Aligned(len, n) && Run(toks, i, n, len)
    requires i + len + n <= |toks|
    ensures Run(toks, i, n, len + n) <==> SameText(toks, i, i + len, n)
  {
    forall x | i <= x < i + n
      ensures Recurs(toks, x + len - n, n) <==> toks[x].text == toks[x + len].text
    {
      RunRepeats(toks, i, n, len, x);
    }
    if SameText(toks, i, i + len, n) {
      forall x | i <= x && x + n < i + len + n
        ensures Recurs(toks, x, n)
      {
        if x >= i + len - n {
          var y := x - len + n;
          assert toks[y].text == toks[y + i + len - i].text;
        }
      }
    }
    if Run(toks, i, n, len + n) {
      forall x | i <= x < i + n
        ensures toks[x].text == toks[x + i + len - i].text
      {
        assert Recurs(toks, x + len - n, n);
      }
    }
  }

  /** The copies counted are the longest run of whole blocks there is. */
  lemma {:induction false} LoopEndIsLongest(toks: seq<Token>, i: nat, n: nat, e: nat)
    requires n > 0 && i + n <= e <= |toks| && Aligned(e - i, n) && Run(toks, i, n, e - i)
    ensures var r := LoopEnd(toks, i, n, e);
            Aligned(r - i, n) && Run(toks, i, n, r - i) && !Run(toks, i, n, r - i + n)
    decreases |toks| - e
  {
    if e + n <= |toks| {
      RunGrows(toks, i, n, e - i);
      if SameText(toks, i, e, n) {
        LoopEndIsLongest(toks, i, n, e + n);
      }
    }
  }

  /** So there is a loop at i exactly when the copies counted are enough. */
  lemma LoopDetected(toks: seq<Token>, i: nat, n: nat)
    requires n > 0 && i + n <= |toks|
    ensures var r := LoopEnd(toks, i, n, i + n);
            Run(toks, i, n, r - i) && (Run(toks, i, n, Span(n)) <==> r - i >= Span(n))
  {
    assert Aligned(n, n) && Run(toks, i, n, n);
    LoopEndIsLongest(toks, i, n, i + n);
    var len := LoopEnd(toks, i, n, i + n) - i;
    assert Aligned(Span(n), n) by {
      assert Aligned(2 * n, n) && Aligned(3 * n, n) && Aligned(4 * n, n) && Aligned(5 * n, n);
    }
    if len < Span(n) {
      AlignedGap(len, Span(n), n);
    }
  }

  lemma {:induction false} AlignedGap(d: nat, e: nat, n: nat)
    requires n > 0 && Aligned(d, n) && Aligned(e, n) && d < e
    ensures d + n <= e
    decreases e
  {
    if d > 0 {
      AlignedGap(d - n, e - n, n);
    }
  }

  // ---- One pass, for one block length ----

  function Cut(toks: seq<Token>, i: nat, n: nat, e: nat): seq<Token>
    requires i + n <= e <= |toks|
  {
    toks[..i + n] + toks[e..]
  }

  function Pass(toks: seq<Token>, n: nat, i: nat): (r: seq<Token>)
    requires n > 0
    ensures |r| <= |toks|
    decreases |toks|, |toks| - i
  {
    if i + Span(n) > |toks| then toks
    else
      var e := LoopEnd(toks, i, n, i + n);
      if e - i < Span(n) then Pass(toks, n, i + 1) else Pass(Cut(toks, i, n, e), n, i)
  }

  /** Cutting the run at i back to its first block starts no new loop to its left:
      a loop across the cut would have been there before it. */
  lemma CutStartsNoRun(toks: seq<Token>, n: nat, i: nat, e: nat, j: nat)
    requires n > 0 && i + Span(n) <= e && Run(toks, i, n, e - i) && j < i
    requires !Run(toks, j, n, Span(n))
    ensures !Run(Cut(toks, i, n, e), j, n, Span(n))
  {
    var cut := Cut(toks, i, n, e);
    if Run(cut, j, n, Span(n)) {
      forall x | j <= x && x + n < j + Span(n)
        ensures Recurs(toks, x, n)
      {
        if x < i {
          assert Recurs(cut, x, n);
        }
      }
      assert false;
    }
  }

  /** After the pass for blocks of n tokens, no place holds a loop of them. */
  lemma {:induction false} PassLeavesNoRun(toks: seq<Token>, n: nat, i: nat)
    requires n > 0
    requires forall j: nat :: j < i ==> !Run(toks, j, n, Span(n))
    ensures RunFree(Pass(toks, n, i), n)
    decreases |toks|, |toks| - i
  {
    if i + Span(n) <= |toks| {
      LoopDetected(toks, i, n);
      var e := LoopEnd(toks, i, n, i + n);
      if e - i < Span(n) {
        PassLeavesNoRun(toks, n, i + 1);
      } else {
        forall j: nat | j < i
          ensures !Run(Cut(toks, i, n, e), j, n, Span(n))
        {
          CutStartsNoRun(toks, n, i, e, j);
        }
        PassLeavesNoRun(Cut(toks, i, n, e), n, i);
      }
    }
  }

  /** a is b with some elements left out: a[k] is b[at[k]], and at is increasing. */
  predicate PicksAt(at: seq<nat>, a: seq<Token>, b: seq<Token>) {
    && |at| == |a|
    && (forall k | 0 <= k < |a| :: at[k] < |b| && a[k] == b[at[k]])
    && (forall k, m | 0 <= k < m < |a| :: at[k] < at[m])
  }

  ghost predicate Subsequence(a: seq<Token>, b: seq<Token>) {
    exists at :: PicksAt(at, a, b)
  }

  ghost function Texts(toks: seq<Token>): set<string> {
    set t | t in toks :: t.text
  }

  lemma SubsequenceTransitive(a: seq<Token>, b: seq<Token>, c: seq<Token>)
    requires Subsequence(a, b) && Subsequence(b, c)
    ensures Subsequence(a, c)
  {
    var f :| PicksAt(f, a, b);
    var g :| PicksAt(g, b, c);
    var at := seq(|a|, k requires 0 <= k < |a| => g[f[k]]);
    assert PicksAt(at, a, c);
  }

  lemma SubsequenceReflexive(a: seq<Token>)
    ensures Subsequence(a, a)
  {
    assert PicksAt(seq(|a|, k => k), a, a);
  }

  /** Cutting a run back keeps every text that occurs, in order. */
  lemma CutKeepsTexts(toks: seq<Token>, n: nat, i: nat, e: nat)
    requires n > 0 && i + n <= e <= |toks| && Run(toks, i, n, e - i)
    ensures Subsequence(Cut(toks, i, n, e), toks) && Texts(Cut(toks, i, n, e)) == Texts(toks)
  {
    var cut := Cut(toks, i, n, e);
    var at := seq(|cut|, k requires 0 <= k => if k < i + n then k else k + e - i - n);
    assert PicksAt(at, cut, toks);
    forall t | t in toks
      ensures t.text in Texts(cut)
    {
      var x :| 0 <= x < |toks| && toks[x] == t;
      if x < i + n {
        assert cut[x] == t;
      } else if x >= e {
        assert cut[x - e + i + n] == t;
      } else {
        var y := RunGoesBack(toks, n, i, e, x);
        assert cut[y] == toks[y];
      }
    }
    forall t | t in cut
      ensures t in toks
    {
    }
  }

  /** Every token of a run reads as one in its first block. */
  lemma {:induction false} RunGoesBack(toks: seq<Token>, n: nat, i: nat, e: nat, x: nat) returns (y: nat)
    requires n > 0 && i <= x < e <= |toks| && Run(toks, i, n, e - i)
    ensures i <= y < i + n && y < |toks| && toks[y].text == toks[x].text
    decreases x
  {
    if x >= i + n {
      assert Recurs(toks, x - n, n);
      y := RunGoesBack(toks, n, i, e, x - n);
    } else {
      y := x;
    }
  }

  /** What deleting one loop keeps. */
  lemma LoopCut(toks: seq<Token>, n: nat, i: nat)
    requires n > 0 && i + n <= |toks|
    ensures var cut := Cut(toks, i, n, LoopEnd(toks, i, n, i + n));
            Subsequence(cut, toks) && Texts(cut) == Texts(toks)
  {
    LoopDetected(toks, i, n);
    CutKeepsTexts(toks, n, i, LoopEnd(toks, i, n, i + n));
  }

  /** A pass leaves tokens out but loses no text. */
  lemma {:induction false} PassKeeps(toks: seq<Token>, n: nat, i: nat)
    requires n > 0
    ensures Subsequence(Pass(toks, n, i), toks) && Texts(Pass(toks, n, i)) == Texts(toks)
    decreases |toks|, |toks| - i
  {
    hide Subsequence, Texts, LoopEnd;
    if i + Span(n) > |toks| {
      SubsequenceReflexive(toks);
    } else {
      var e := LoopEnd(toks, i, n, i + n);
      if e - i < Span(n) {
        PassKeeps(toks, n, i + 1);
      } else {
        var cut := Cut(toks, i, n, e);
        LoopCut(toks, n, i);
        PassKeeps(cut, n, i);
        SubsequenceTransitive(Pass(cut, n, i), cut, toks);
      }
    }
  }

  lemma NoRoom(toks: seq<Token>, i: nat, n: nat)
    ensures |toks| < i + Span(n) ==> forall j: nat :: j >= i ==> !Run(toks, j, n, Span(n))
  {
    hide Recurs;
  }

  /** A pass leaves the tokens alone exactly when there is no loop from i on;
      otherwise it shortens them. */
  lemma {:induction false} PassChanges(toks: seq<Token>, n: nat, i: nat)
    requires n > 0
    ensures Pass(toks, n, i) == toks <==> forall j: nat :: j >= i ==> !Run(toks, j, n, Span(n))
    ensures Pass(toks, n, i) == toks || |Pass(toks, n, i)| < |toks|
    decreases |toks| - i
  {
    hide Run, LoopEnd;
    NoRoom(toks, i, n);
    if i + Span(n) <= |toks| {
      LoopDetected(toks, i, n);
      if LoopEnd(toks, i, n, i + n) - i < Span(n) {
        PassChanges(toks, n, i + 1);
      }
    }
  }

  // ---- All passes, longest blocks first ----

  function PassesFrom(toks: seq<Token>, n: nat): (r: seq<Token>)
    ensures |r| <= |toks|
    decreases n
  {
    if n == 0 then toks else PassesFrom(Pass(toks, n, 0), n - 1)
  }

  function Collapsed(toks: seq<Token>): seq<Token> {
    PassesFrom(toks, REPEAT_MAX_BLOCK)
  }

  lemma {:induction false} PassesKeep(toks: seq<Token>, n: nat)
    ensures Subsequence(PassesFrom(toks, n), toks) && Texts(PassesFrom(toks, n)) == Texts(toks)
    decreases n
  {
    if n == 0 {
      SubsequenceReflexive(toks);
    } else {
      var once := Pass(toks, n, 0);
      PassKeeps(toks, n, 0);
      PassesKeep(once, n - 1);
      SubsequenceTransitive(PassesFrom(once, n - 1), once, toks);
    }
  }

  lemma {:induction false} PassesChange(toks: seq<Token>, n: nat)
    ensures PassesFrom(toks, n) == toks <==> forall m: nat | 1 <= m <= n :: RunFree(toks, m)
    decreases n
  {
    if n > 0 {
      PassChanges(toks, n, 0);
      PassesChange(Pass(toks, n, 0), n - 1);
      assert RunFree(toks, n) <==> Pass(toks, n, 0) == toks;
    }
  }

  /** Collapsing keeps a subsequence with every text that occurred (so at least one token),
      and changes nothing exactly when there was no run of any length to begin with. */
  lemma CollapseKeeps(toks: seq<Token>)
    ensures Subsequence(Collapsed(toks), toks)
    ensures Texts(Collapsed(toks)) == Texts(toks)
    ensures toks != [] ==> Collapsed(toks) != []
    ensures Collapsed(toks) == toks <==> forall n: nat | 1 <= n <= REPEAT_MAX_BLOCK :: RunFree(toks, n)
  {
    PassesKeep(toks, REPEAT_MAX_BLOCK);
    PassesChange(toks, REPEAT_MAX_BLOCK);
    if toks != [] {
      assert toks[0].text in Texts(toks);
    }
  }

  /** The tokens once the passes for blocks longer than m are over. */
  function PassedTo(toks: seq<Token>, n: nat, m: nat): seq<Token>
    requires m <= n
    decreases n
  {
    if n == m then toks else PassedTo(Pass(toks, n, 0), n - 1, m)
  }

  lemma {:induction false} PassedToNext(toks: seq<Token>, n: nat, m: nat)
    requires m < n
    ensures PassedTo(toks, n, m) == Pass(PassedTo(toks, n, m + 1), m + 1, 0)
    decreases n
  {
    hide Pass;
    if n > m + 1 {
      PassedToNext(Pass(toks, n, 0), n - 1, m);
    }
  }

  lemma {:induction false} PassedToEnd(toks: seq<Token>, n: nat)
    ensures PassedTo(toks, n, 0) == PassesFrom(toks, n)
    decreases n
  {
    hide Pass;
    if n > 0 {
      PassedToEnd(Pass(toks, n, 0), n - 1);
    }
  }

  /** The pass for blocks of m makes a run of blocks of n, and no later pass unmakes it. */
  ghost predicate MakesForGood(toks: seq<Token>, m: nat, n: nat)
    requires m <= REPEAT_MAX_BLOCK
  {
    && RunFree(PassedTo(toks, REPEAT_MAX_BLOCK, m), n)
    && forall k: nat | k < m :: !RunFree(PassedTo(toks, REPEAT_MAX_BLOCK, k), n)
  }

  /** A run left at the end was made after its own pass, by the pass for some shorter block. */
  lemma LeftRunIsMade(toks: seq<Token>, n: nat) returns (m: nat)
    requires 1 <= n <= REPEAT_MAX_BLOCK && !RunFree(Collapsed(toks), n)
    ensures 1 <= m < n && MakesForGood(toks, m, n)
  {
    hide RunFree, PassedTo, PassesFrom;
    PassedToEnd(toks, REPEAT_MAX_BLOCK);
    m := 0;
    while !RunFree(PassedTo(toks, REPEAT_MAX_BLOCK, m), n)
      invariant m < n && forall k: nat | k < m :: !RunFree(PassedTo(toks, REPEAT_MAX_BLOCK, k), n)
      decreases n - m
    {
      OwnPassClears(toks, n);
      m := m + 1;
    }
  }

  /** Collapsing twice is collapsing once exactly when no pass makes a run of longer blocks that no later pass
      unmakes; that is, when none of any length is left. */
  lemma CollapsingTwice(toks: seq<Token>)
    ensures Collapsed(Collapsed(toks)) == Collapsed(toks) <==>
            !exists m: nat, n: nat :: 1 <= m < n <= REPEAT_MAX_BLOCK && MakesForGood(toks, m, n)
    ensures Collapsed(Collapsed(toks)) == Collapsed(toks) <==>
            forall n: nat | 1 <= n <= REPEAT_MAX_BLOCK :: RunFree(Collapsed(toks), n)
  {
    hide RunFree, PassedTo, PassesFrom;
    CollapseKeeps(Collapsed(toks));
    PassedToEnd(toks, REPEAT_MAX_BLOCK);
    if n: nat :| 1 <= n <= REPEAT_MAX_BLOCK && !RunFree(Collapsed(toks), n) {
      var m := LeftRunIsMade(toks, n);
    }
  }

  lemma OwnPassClears(toks: seq<Token>, n: nat)
    requires 1 <= n <= REPEAT_MAX_BLOCK
    ensures RunFree(PassedTo(toks, REPEAT_MAX_BLOCK, n - 1), n)
  {
    PassedToNext(toks, REPEAT_MAX_BLOCK, n - 1);
    PassLeavesNoRun(PassedTo(toks, REPEAT_MAX_BLOCK, n), n, 0);
  }

  /** No run of single tokens is left at the very end: that pass is the last one. */
  lemma {:induction false} LastPassIsForSingles(toks: seq<Token>, n: nat)
    requires n > 0
    ensures RunFree(PassesFrom(toks, n), 1)
    decreases n
  {
    if n == 1 {
      PassLeavesNoRun(toks, 1, 0);
      assert PassesFrom(Pass(toks, 1, 0), 0) == Pass(toks, 1, 0);
    } else {
      LastPassIsForSingles(Pass(toks, n, 0), n - 1);
    }
  }

  method SameBlock(toks: seq<Token>, a: nat, b: nat, n: nat) returns (same: bool)
    requires a + n <= |toks| && b + n <= |toks|
    ensures same <==> SameText(toks, a, b, n)
  {
    for k := 0 to n
      invariant forall x | a <= x < a + k :: toks[x].text == toks[x + b - a].text
    {
      if toks[a + k].text != toks[b + k].text {
        return false;
      }
    }
    return true;
  }

  /** Counts the copies of the n tokens from i that follow one another. */
  method CountCopies(toks: seq<Token>, i: nat, n: nat) returns (copies: nat)
    requires n > 0 && i + n <= |toks|
    ensures copies >= 1 && i + copies * n == LoopEnd(toks, i, n, i + n)
  {
    hide SameText;
    copies := 1;
    ghost var e := i + n;
    while true
      invariant copies >= 1 && e == i + copies * n && i + n <= e <= |toks|
      invariant LoopEnd(toks, i, n, e) == LoopEnd(toks, i, n, i + n)
      decreases |toks| - e
    {
      assert (copies + 1) * n == copies * n + n;
      if i + (copies + 1) * n > |toks| {
        break;
      }
      var same := SameBlock(toks, i, i + copies * n, n);
      if !same {
        break;
      }
      copies, e := copies + 1, e + n;
    }
  }

  method CollapseTokenRepeats(tokens: seq<Token>) returns (toks: seq<Token>)
    ensures toks == Collapsed(tokens)
  {
    hide LoopEnd;
    toks := tokens;
    var n: nat := REPEAT_MAX_BLOCK;
    while n >= 1
      invariant PassesFrom(toks, n) == Collapsed(tokens)
    {
      var need := REPEAT_MIN_LONG;
      if n < 3 {
        need := REPEAT_MIN_SHORT;
      }
      var i: nat := 0;
      ghost var before := toks;
      while i + n * need <= |toks|
        invariant Pass(toks, n, i) == Pass(before, n, 0)
        decreases |toks|, |toks| - i
      {
        assert n * need == Span(n);
        var copies := CountCopies(toks, i, n);
        CopiesToLength(copies, need, n);
        if copies < need {
          i := i + 1;
        } else {
          toks := toks[..i + n] + toks[i + copies * n..];
        }
      }
      n := n - 1;
    }
  }

  lemma CopiesToLength(copies: nat, need: nat, n: nat)
    requires n > 0
    ensures copies < need <==> copies * n < need * n
  {
    if copies < need {
      assert need * n == copies * n + (need - copies) * n;
    } else {
      assert copies * n == need * n + (copies - need) * n;
    }
  }

  // ---- The guard on a line ----

  function CollapsedText(text: string, ideograph: char -> bool): string {
    var toks := TokensOf(text, ideograph);
    if |toks| < 2 * REPEAT_MIN_LONG then text
    else if |Collapsed(toks)| == |toks| then text
    else TrimSpace(Joined(Collapsed(toks)))
  }

  method CollapseRepeats(text: string, ideograph: char -> bool) returns (r: string)
    ensures r == CollapsedText(text, ideograph)
  {
    var toks := Tokenize(text, ideograph);
    if |toks| < 2 * REPEAT_MIN_LONG {
      return text;
    }
    var collapsed := CollapseTokenRepeats(toks);
    if |collapsed| == |toks| {
      return text;
    }
    var joined := JoinTokens(collapsed);
    return TrimSpace(joined);
  }

  lemma {:induction false} JoinedContains(toks: seq<Token>, k: nat, ideograph: char -> bool)
    requires k < |toks| && toks[k].text != "" && SpaceFree(toks[k].text)
    ensures exists i :: 0 <= i < |Joined(toks)| && !IsSpace(Joined(toks)[i])
  {
    var front := Joined(toks[..|toks| - 1]);
    if k == |toks| - 1 {
      assert Joined(toks)[|front|] == toks[k].text[0];
    } else {
      JoinedContains(toks[..|toks| - 1], k, ideograph);
      var i :| 0 <= i < |front| && !IsSpace(front[i]);
      assert Joined(toks)[i] == front[i];
    }
  }

  lemma CollapseNonEmpty(toks: seq<Token>)
    requires toks != []
    ensures Collapsed(toks) != [] && Subsequence(Collapsed(toks), toks)
  {
    CollapseKeeps(toks);
  }

  /** A line that says something still says something after the guard. */
  lemma CollapsedTextKeeps(text: string, ideograph: char -> bool)
    requires text != ""
    ensures CollapsedText(text, ideograph) != ""
  {
    hide Collapsed, Joined, TrimSpace, TokensOf, IsSpace, IsGlyph;
    var toks := TokensOf(text, ideograph);
    if |toks| >= 2 * REPEAT_MIN_LONG {
      JoinOfTokens(text, ideograph);
      var left := Collapsed(toks);
      CollapseNonEmpty(toks);
      var at :| PicksAt(at, left, toks);
      assert left[0] == toks[at[0]];
      TokenSays(toks, at[0], ideograph);
      JoinedContains(left, 0, ideograph);
      var i :| 0 <= i < |Joined(left)| && !IsSpace(Joined(left)[i]);
      TrimSpaceKeeps(Joined(left), i);
    }
  }

  // ---- Collapsing twice ----

  /** The i-th letter of a^p b c a^q b c a^r b c. */
  function LetterAt(p: nat, q: nat, r: nat, i: nat): char {
    if i == p || i == p + q + 2 || i == p + q + r + 4 then 'b'
    else if i == p + 1 || i == p + q + 3 || i == p + q + r + 5 then 'c'
    else 'a'
  }

  /** a^p b c a^q b c a^r b c, one token a letter. */
  function Stutter(p: nat, q: nat, r: nat): (toks: seq<Token>)
    ensures |toks| == p + q + r + 6
    ensures forall i | 0 <= i < |toks| :: toks[i] == Token([LetterAt(p, q, r, i)], " ")
  {
    seq(p + q + r + 6, i requires 0 <= i => Token([LetterAt(p, q, r, i)], " "))
  }

  /** Passes for lengths without a loop do nothing. */
  lemma {:induction false} SkipPasses(toks: seq<Token>, n: nat, m: nat)
    requires m <= n && forall k: nat | m < k <= n :: RunFree(toks, k)
    ensures PassesFrom(toks, n) == PassesFrom(toks, m)
    decreases n
  {
    if n > m {
      PassChanges(toks, n, 0);
      assert RunFree(toks, n);
      SkipPasses(toks, n - 1, m);
    }
  }

  /** The copies of a single letter end where the letter changes. */
  lemma {:induction false} LoopEndIs(toks: seq<Token>, i: nat, e: nat, last: nat)
    requires i < e <= last < |toks| && toks[last].text != toks[i].text
    requires forall x | i <= x < last :: toks[x].text == toks[i].text
    ensures LoopEnd(toks, i, 1, e) == last
    decreases last - e
  {
    if e < last {
      assert SameText(toks, i, e, 1);
      LoopEndIs(toks, i, e + 1, last);
    } else {
      assert toks[i].text != toks[i + e - i].text;
    }
  }

  lemma StutterRecurs(p: nat, q: nat, r: nat, x: nat, n: nat)
    requires x + n < p + q + r + 6
    ensures Recurs(Stutter(p, q, r), x, n) <==> LetterAt(p, q, r, x) == LetterAt(p, q, r, x + n)
  {
    assert [LetterAt(p, q, r, x)][0] == LetterAt(p, q, r, x);
    assert [LetterAt(p, q, r, x + n)][0] == LetterAt(p, q, r, x + n);
  }

  /** What the pass for single letters does where a stretch from i of one letter ends at last. */
  lemma StutterStep(p: nat, q: nat, r: nat, i: nat, last: nat)
    requires i < last < p + q + r + 6 && i + 6 <= p + q + r + 6
    requires LetterAt(p, q, r, last) != LetterAt(p, q, r, i)
    requires forall x | i <= x < last :: LetterAt(p, q, r, x) == LetterAt(p, q, r, i)
    ensures LoopEnd(Stutter(p, q, r), i, 1, i + 1) == last
    ensures last - i < 6 ==> Pass(Stutter(p, q, r), 1, i) == Pass(Stutter(p, q, r), 1, i + 1)
  {
    var toks := Stutter(p, q, r);
    assert [LetterAt(p, q, r, last)][0] != [LetterAt(p, q, r, i)][0];
    LoopEndIs(toks, i, i + 1, last);
  }

  /** Any stretch of three or more blocks of two or more letters has one that differs from that a block on. */
  lemma StutterBreaks(j: nat, n: nat) returns (x: nat)
    requires n >= 2 && j + Span(n) <= 27
    ensures j <= x && x + n < j + Span(n) && LetterAt(6, 7, 8, x) != LetterAt(6, 7, 8, x + n)
  {
    var at := if n == 9 then 15 else if j <= 6 < j + Span(n) then 6 else if j <= 15 < j + Span(n) then 15
              else if j <= 25 < j + Span(n) then 25 else 16;
    x := if at + n < j + Span(n) then at else at - n;
  }

  /** No loop of two or more tokens in a^6 b c a^7 b c a^8 b c. */
  lemma StutterHasNoLongLoop(n: nat)
    requires n >= 2
    ensures RunFree(Stutter(6, 7, 8), n)
  {
    hide Stutter, LetterAt, Recurs;
    var toks := Stutter(6, 7, 8);
    forall j: nat
      ensures !Run(toks, j, n, Span(n))
    {
      if j + Span(n) <= |toks| {
        var x := StutterBreaks(j, n);
        StutterRecurs(6, 7, 8, x, n);
        assert !Recurs(toks, x, n);
      }
    }
  }

  lemma StutterCut(p: nat, q: nat, r: nat, i: nat, p': nat, q': nat, r': nat)
    requires p >= 1 && q >= 1 && r >= 6
    requires
      || (i == 0 && p >= 6 && p' == 1 && q' == q && r' == r)
      || (p == 1 && i == 3 && q >= 6 && p' == 1 && q' == 1 && r' == r)
      || (p == q == 1 && i == 6 && p' == q' == r' == 1)
    ensures Pass(Stutter(p, q, r), 1, i) == Pass(Stutter(p', q', r'), 1, i)
  {
    hide LoopEnd;
    var last := if i == 0 then p else if i == 3 then q + 3 else r + 6;
    StutterStep(p, q, r, i, last);
    assert Cut(Stutter(p, q, r), i, 1, last) == Stutter(p', q', r');
  }

  /** The last pass takes the three stretches of a's one after the other. */
  lemma StutterCollapses()
    ensures Pass(Stutter(6, 7, 8), 1, 0) == Stutter(1, 1, 1)
  {
    StutterCut(6, 7, 8, 0, 1, 7, 8);
    StutterStep(1, 7, 8, 0, 1);
    StutterStep(1, 7, 8, 1, 2);
    StutterStep(1, 7, 8, 2, 3);
    StutterCut(1, 7, 8, 3, 1, 1, 8);
    StutterStep(1, 1, 8, 3, 4);
    StutterStep(1, 1, 8, 4, 5);
    StutterStep(1, 1, 8, 5, 6);
    StutterCut(1, 1, 8, 6, 1, 1, 1);
  }

  lemma StutterLeavesLongLoop()
    ensures !RunFree(Stutter(1, 1, 1), 3)
  {
    forall x | 0 <= x < 6
      ensures Recurs(Stutter(1, 1, 1), x, 3)
    {
      StutterRecurs(1, 1, 1, x, 3);
    }
    assert Run(Stutter(1, 1, 1), 0, 3, Span(3));
  }

  /** A pass for short blocks can make a loop of longer ones after their pass is over:
      a^6 b c a^7 b c a^8 b c collapses to (a b c)^3, which collapses further. */
  lemma CollapsingIsNotIdempotent()
    ensures Collapsed(Stutter(6, 7, 8)) == Stutter(1, 1, 1)
    ensures Collapsed(Stutter(1, 1, 1)) != Stutter(1, 1, 1)
  {
    forall n: nat | 1 < n <= REPEAT_MAX_BLOCK
      ensures RunFree(Stutter(6, 7, 8), n)
    {
      StutterHasNoLongLoop(n);
    }
    SkipPasses(Stutter(6, 7, 8), REPEAT_MAX_BLOCK, 1);
    StutterCollapses();
    PassesChange(Stutter(1, 1, 1), REPEAT_MAX_BLOCK);
    StutterLeavesLongLoop();
  }
}
