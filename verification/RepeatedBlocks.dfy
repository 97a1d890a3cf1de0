/** What the guard makes of a whole line (internal/translate/repeats.go): how many copies it leaves of a block
    said over and over, and how what is left reads when it is cut again. */
module RepeatedBlocks {
  import opened Text
  import opened Repeats

  // ---- A block said over and over ----

  /** The text is the first n tokens, k times. */
  predicate Says(toks: seq<Token>, n: nat, k: nat) {
    n > 0 && |toks| == n * k && forall x | 0 <= x && x + n < |toks| :: Recurs(toks, x, n)
  }

  /** Said three times, the block has no run of anything shorter than itself. */
  ghost predicate NoInnerRun(block: seq<Token>) {
    forall m: nat | 1 <= m < |block| :: RunFree(block + block + block, m)
  }

  /** The copies that the passes for blocks of m tokens down to one leave of a block of n tokens said k times. A
      pass takes q blocks for one when it looks for q times as many tokens; what does not fill such a group is
      left over. */
  function CopiesLeft(n: nat, k: nat, m: nat): nat
    requires n > 0
    decreases m
  {
    if m == 0 then k
    else
      var q := m / n;
      if q > 0 && m % n == 0 && k >= q * (if m < 3 then 6 else 3) then CopiesLeft(n, q + k % q, m - 1)
      else CopiesLeft(n, k, m - 1)
  }

  // ---- Places within a block ----

  /** How far x is into its block. */
  function Within(x: nat, n: nat): (r: nat)
    requires n > 0
    ensures r < n
  {
    if x < n then x else Within(x - n, n)
  }

  lemma {:induction false} WithinMore(x: nat, y: nat, n: nat)
    requires n > 0
    ensures Within(Within(x, n) + y, n) == Within(x + y, n)
    decreases x
  {
    if x >= n {
      WithinMore(x - n, y, n);
      assert Within(x + y, n) == Within(x + y - n, n);
    }
  }

  lemma {:induction false} WithinCounts(x: nat, n: nat) returns (c: nat)
    requires n > 0
    ensures x == c * n + Within(x, n)
  {
    if x < n {
      c := 0;
    } else {
      var d := WithinCounts(x - n, n);
      c := d + 1;
      assert (d + 1) * n == d * n + n;
    }
  }

  lemma QuotientIs(x: nat, n: nat, c: nat, r: nat)
    requires n > 0 && x == c * n + r && r < n
    ensures x / n == c && x % n == r
  {
    var d := x / n - c;
    assert d * n == r - x % n;
    if d != 0 {
      AtLeastOne(d, n);
    }
  }

  lemma AtLeastOne(d: int, n: nat)
    requires d != 0
    ensures d * n >= n || d * n <= 0 - n
  {
    if d > 0 {
      Multiple(d, n);
    } else {
      Multiple(-d, n);
      assert (-d) * n == 0 - d * n;
    }
  }

  lemma {:induction false} Multiple(c: nat, n: nat)
    requires c > 0
    ensures c * n >= n
  {
    if c > 1 {
      Multiple(c - 1, n);
      assert c * n == (c - 1) * n + n;
    }
  }

  lemma WithinIs(x: nat, n: nat)
    requires n > 0
    ensures Within(x, n) == x % n
  {
    var c := WithinCounts(x, n);
    QuotientIs(x, n, c, Within(x, n));
  }

  /** Every token reads as one of the block. */
  lemma {:induction false} SaysByBlock(toks: seq<Token>, n: nat, k: nat, x: nat)
    requires Says(toks, n, k) && x < |toks|
    ensures Within(x, n) < |toks| && toks[x].text == toks[Within(x, n)].text
  {
    if x >= n {
      SaysByBlock(toks, n, k, x - n);
      assert Recurs(toks, x - n, n);
    }
  }

  lemma ThriceReads(block: seq<Token>, x: nat)
    requires x < 3 * |block|
    ensures (block + block + block)[x] == block[Within(x, |block|)]
  {
    var n := |block|;
    assert x >= n ==> Within(x, n) == Within(x - n, n);
    assert x >= 2 * n ==> Within(x - n, n) == Within(x - n - n, n);
  }

  /** The token at y reads as the one d places on, going round. */
  predicate Turns(block: seq<Token>, y: nat, d: nat)
    requires y < |block|
  {
    block[y].text == block[Within(y + d, |block|)].text
  }

  lemma ThriceRecurs(block: seq<Token>, d: nat)
    requires forall y | 0 <= y < |block| :: Turns(block, y, d)
    ensures forall x | 0 <= x && x + d < 3 * |block| :: Recurs(block + block + block, x, d)
  {
    var n, thrice := |block|, block + block + block;
    forall x | 0 <= x && x + d < 3 * n
      ensures Recurs(thrice, x, d)
    {
      ThriceReads(block, x);
      ThriceReads(block, x + d);
      WithinMore(x, d, n);
      assert Turns(block, Within(x, n), d);
    }
  }

  /** A block that is its own rotation has an inner run. */
  lemma RotationRuns(block: seq<Token>, d: nat)
    requires 0 < d < |block|
    requires forall y | 0 <= y < |block| :: Turns(block, y, d)
    ensures !NoInnerRun(block)
  {
    var n, thrice := |block|, block + block + block;
    ThriceRecurs(block, d);
    if n == 3 && d == 2 {
      forall y | 0 <= y < 3
        ensures Turns(block, y, 1)
      {
        assert Turns(block, 0, 2) && Turns(block, 1, 2) && Turns(block, 2, 2);
        assert Within(2, 3) == 2 && Within(3, 3) == 0 && Within(4, 3) == 1;
      }
      ThriceRecurs(block, 1);
      assert Run(thrice, 0, 1, Span(1));
      assert !RunFree(thrice, 1);
    } else {
      assert Run(thrice, 0, d, Span(d));
      assert !RunFree(thrice, d);
    }
  }

  /** A pass for a length that is not a whole number of blocks finds nothing. */
  lemma OtherLengthsFindNothing(toks: seq<Token>, n: nat, k: nat, m: nat)
    requires Says(toks, n, k) && k > 0 && n <= |toks| && m > 0 && Within(m, n) != 0 && NoInnerRun(toks[..n])
    ensures RunFree(toks, m)
  {
    hide Run, NoInnerRun, Says;
    forall i: nat
      ensures !Run(toks, i, m, Span(m))
    {
      if Run(toks, i, m, Span(m)) {
        if Span(m) - m >= n {
          LongRunRotates(toks, n, k, m, i);
        } else {
          ShortRunIsInner(toks, n, k, m, i);
        }
        assert false;
      }
    }
  }

  lemma LongRunRotates(toks: seq<Token>, n: nat, k: nat, m: nat, i: nat)
    requires Says(toks, n, k) && n <= |toks| && m > 0 && Within(m, n) != 0
    requires Run(toks, i, m, Span(m)) && Span(m) - m >= n
    ensures !NoInnerRun(toks[..n])
  {
    var block, d := toks[..n], Within(m, n);
    forall y | 0 <= y < n
      ensures Turns(block, y, d)
    {
      TurnsByRun(toks, n, k, m, i, y);
    }
    hide Turns;
    RotationRuns(block, d);
  }

  lemma TurnsByRun(toks: seq<Token>, n: nat, k: nat, m: nat, i: nat, y: nat)
    requires Says(toks, n, k) && y < n <= |toks| && m > 0
    requires Run(toks, i, m, Span(m)) && Span(m) - m >= n
    ensures Turns(toks[..n], y, Within(m, n))
  {
    var x := PlaceOf(i, y, n);
    assert Recurs(toks, x, m);
    SaysByBlock(toks, n, k, x);
    SaysByBlock(toks, n, k, x + m);
    TurnPlace(x, y, m, n);
    hide Within, Run, Says;
    assert toks[..n][y] == toks[y] && toks[..n][Within(x + m, n)] == toks[Within(x + m, n)];
  }

  lemma TurnPlace(x: nat, y: nat, m: nat, n: nat)
    requires n > 0 && Within(x, n) == y
    ensures Within(y + Within(m, n), n) == Within(x + m, n)
  {
    WithinMore(m, y, n);
    WithinMore(x, m, n);
  }

  /** The place within n from i that is y into a block. */
  lemma PlaceOf(i: nat, y: nat, n: nat) returns (x: nat)
    requires y < n
    ensures i <= x < i + n && Within(x, n) == y
  {
    var r := Within(i, n);
    x := if r <= y then i + (y - r) else i + (y + n - r);
    WithinMore(i, x - i, n);
    assert Within(y + n, n) == Within(y, n) == y;
  }

  lemma ShortRunIsInner(toks: seq<Token>, n: nat, k: nat, m: nat, i: nat)
    requires Says(toks, n, k) && n <= |toks| && m > 0
    requires Run(toks, i, m, Span(m)) && Span(m) - m < n
    ensures !NoInnerRun(toks[..n])
  {
    var block, r := toks[..n], Within(i, n);
    var thrice := block + block + block;
    forall x | r <= x && x + m < r + Span(m)
      ensures Recurs(thrice, x, m)
    {
      assert Recurs(toks, i + (x - r), m);
      InnerRecurs(toks, block, n, k, m, i, x - r);
    }
    assert Run(thrice, r, m, Span(m));
    assert !RunFree(thrice, m);
  }

  lemma InnerRecurs(toks: seq<Token>, block: seq<Token>, n: nat, k: nat, m: nat, i: nat, d: nat)
    requires Says(toks, n, k) && |block| == n && block <= toks && i + d + m < |toks| && Recurs(toks, i + d, m)
    requires Within(i, n) + d + m < 3 * n
    ensures Recurs(block + block + block, Within(i, n) + d, m)
  {
    hide Within;
    var a, b, x := i + d, i + d + m, Within(i, n) + d;
    SaysByBlock(toks, n, k, a);
    SaysByBlock(toks, n, k, b);
    hide Says;
    assert toks[a].text == toks[b].text;
    assert Within(x, n) == Within(a, n) by { WithinMore(i, d, n); }
    assert Within(x + m, n) == Within(b, n) by { WithinMore(i, d + m, n); }
    var y, z := Within(a, n), Within(b, n);
    assert block[y] == toks[y] && block[z] == toks[z];
    hide Recurs;
    ThriceRecursAt(block, x, m);
  }

  lemma ThriceRecursAt(block: seq<Token>, x: nat, m: nat)
    requires x + m < 3 * |block| && block[Within(x, |block|)].text == block[Within(x + m, |block|)].text
    ensures Recurs(block + block + block, x, m)
  {
    hide *;
    ThriceReads(block, x);
    ThriceReads(block, x + m);
    RecursIs(block + block + block, x, m);
  }

  lemma RecursIs(toks: seq<Token>, x: nat, n: nat)
    requires x + n < |toks|
    ensures Recurs(toks, x, n) <==> toks[x].text == toks[x + n].text
  {
  }

  // ---- What the passes leave of it ----

  /** A block said k times is q times the block said k / q times, as far as that goes. */
  lemma {:induction false} SaysMore(toks: seq<Token>, n: nat, k: nat, q: nat)
    requires Says(toks, n, k)
    ensures Run(toks, 0, q * n, |toks|)
  {
    forall x | 0 <= x && x + q * n < |toks|
      ensures Recurs(toks, x, q * n)
    {
      SameBlocksOn(toks, n, k, x, q);
    }
  }

  lemma {:induction false} SameBlocksOn(toks: seq<Token>, n: nat, k: nat, x: nat, q: nat)
    requires Says(toks, n, k) && x + q * n < |toks|
    ensures toks[x].text == toks[x + q * n].text
  {
    if q > 0 {
      assert q * n == (q - 1) * n + n;
      SameBlocksOn(toks, n, k, x, q - 1);
      assert Recurs(toks, x + (q - 1) * n, n);
    }
  }

  /** The copies of the first m tokens go on as far as whole copies fit. */
  lemma CopiesGoOn(toks: seq<Token>, m: nat)
    requires m > 0 && m <= |toks| && Run(toks, 0, m, |toks|)
    ensures LoopEnd(toks, 0, m, m) == |toks| - Within(|toks|, m)
  {
    assert Aligned(m, m);
    RunUpTo(toks, m, m);
    LoopEndIsLongest(toks, 0, m, m);
    hide LoopEnd, Run, Within;
    var e := LoopEnd(toks, 0, m, m);
    if e + m <= |toks| {
      RunUpTo(toks, m, e + m);
      assert false;
    }
    AlignedRest(e, |toks|, m);
  }

  lemma RunUpTo(toks: seq<Token>, m: nat, len: nat)
    requires Run(toks, 0, m, |toks|) && len <= |toks|
    ensures Run(toks, 0, m, len)
  {
  }

  lemma {:induction false} AlignedRest(e: nat, x: nat, m: nat)
    requires m > 0 && Aligned(e, m) && e <= x < e + m
    ensures Within(x, m) == x - e
    decreases e
  {
    if e > 0 {
      AlignedRest(e - m, x - m, m);
    }
  }

  /** The pass for blocks of m tokens takes the tokens for copies of their first m. */
  lemma PassOfCopies(toks: seq<Token>, m: nat)
    requires m > 0 && Run(toks, 0, m, |toks|)
    ensures Pass(toks, m, 0)
            == if |toks| < Span(m) then toks else toks[..m] + toks[|toks| - Within(|toks|, m)..]
  {
    hide LoopEnd, Run, Within;
    if |toks| >= Span(m) {
      CopiesGoOn(toks, m);
      RunUpTo(toks, m, Span(m));
      LoopDetected(toks, 0, m);
      PassCuts(toks, m, |toks| - Within(|toks|, m));
    }
  }

  lemma PassCuts(toks: seq<Token>, m: nat, e: nat)
    requires m > 0 && Span(m) <= e <= |toks| && LoopEnd(toks, 0, m, m) == e && |toks| - e < m
    ensures Pass(toks, m, 0) == toks[..m] + toks[e..]
  {
    hide LoopEnd;
    assert Pass(toks, m, 0) == Pass(Cut(toks, 0, m, e), m, 0);
    PassFindsNoRoom(Cut(toks, 0, m, e), m);
  }

  lemma PassFindsNoRoom(toks: seq<Token>, m: nat)
    requires m > 0 && |toks| < Span(m)
    ensures Pass(toks, m, 0) == toks
  {
  }

  /** Its length, cut up into groups of q blocks and what is left over. */
  lemma Groups(n: nat, k: nat, q: nat)
    requires n > 0 && 0 < q <= k
    ensures n * k == k / q * (q * n) + n * (k % q) && n * (k % q) < q * n <= n * k && n <= q * n
  {
    var c, rest := k / q, k % q;
    assert k == c * q + rest;
    assert n * (c * q + rest) == n * (c * q) + n * rest;
    assert n * (c * q) == c * (q * n) by {
      Regroup(n, c, q);
    }
    LessTimes(rest, q, n);
    LessTimes(k, q, n);
    Multiple(q, n);
  }

  lemma Regroup(n: nat, c: nat, q: nat)
    ensures n * (c * q) == c * (q * n)
  {
    assert n * (c * q) == (n * c) * q == (c * n) * q == c * (n * q);
    assert n * q == q * n;
  }

  /** Where the tokens left over begin. */
  lemma RestBegins(n: nat, k: nat, q: nat)
    requires n > 0 && 0 < q <= k
    ensures Within(n * k, q * n) == n * (k % q) && n <= q * n <= n * k - n * (k % q)
    ensures Within(n * k - n * (k % q), n) == 0
  {
    var c, rest := k / q, k % q;
    Groups(n, k, q);
    QuotientIs(n * k, q * n, c, n * rest);
    WithinIs(n * k, q * n);
    Regroup(n, c, q);
    assert n * k - n * rest == c * (q * n) == (c * q) * n;
    WholeBlocks(c * q, n);
    Multiple(c, q * n);
  }

  /** What is left of it is the same block said fewer times. */
  lemma CutSays(toks: seq<Token>, n: nat, k: nat, q: nat, at: nat, rest: nat)
    requires Says(toks, n, k) && q > 0 && n <= q * n <= at <= |toks| && Within(at, n) == 0
    requires |toks| - at == n * rest
    ensures var left := toks[..q * n] + toks[at..];
            Says(left, n, q + rest) && n <= |left| && left[..n] == toks[..n]
  {
    var left := toks[..q * n] + toks[at..];
    assert n * (q + rest) == q * n + n * rest;
    forall x | 0 <= x && x + n < |left|
      ensures Recurs(left, x, n)
    {
      LeftRecurs(toks, n, k, q, at, x);
    }
    hide Says;
    SaysIs(left, n, q + rest);
  }

  lemma SaysIs(toks: seq<Token>, n: nat, k: nat)
    requires n > 0 && |toks| == n * k && forall x | 0 <= x && x + n < |toks| :: Recurs(toks, x, n)
    ensures Says(toks, n, k)
  {
  }

  lemma LeftRecurs(toks: seq<Token>, n: nat, k: nat, q: nat, cut: nat, x: nat)
    requires Says(toks, n, k) && q > 0 && q * n <= cut <= |toks| && Within(cut, n) == 0
    requires x + n < q * n + |toks| - cut
    ensures Recurs(toks[..q * n] + toks[cut..], x, n)
  {
    var left := toks[..q * n] + toks[cut..];
    if x + n < q * n {
      assert Recurs(toks, x, n);
    } else if x >= q * n {
      assert Recurs(toks, x - q * n + cut, n);
    } else {
      var y := x + n - q * n + cut;
      SaysByBlock(toks, n, k, x);
      SaysByBlock(toks, n, k, y);
      WithinMore(cut, x + n - q * n, n);
      WholeBlocks(q, n);
      WithinMore(q * n, x + n - q * n, n);
      assert Within(x + n, n) == Within(x, n);
    }
  }

  lemma {:induction false} WholeBlocks(q: nat, n: nat)
    requires n > 0
    ensures Within(q * n, n) == 0
  {
    if q > 0 {
      assert q * n == (q - 1) * n + n;
      WholeBlocks(q - 1, n);
    }
  }

  /** What the pass for blocks of m tokens leaves of k copies. */
  function CopiesNext(n: nat, k: nat, m: nat): (left: nat)
    requires n > 0 && m > 0
    ensures left <= k && (k > 0 ==> left > 0)
  {
    var q := m / n;
    if q > 0 && m % n == 0 && k >= q * (if m < 3 then 6 else 3) then
      assert k >= q + k % q by { FewerLeft(k, q); }
      q + k % q
    else k
  }

  lemma FewerLeft(k: nat, q: nat)
    requires q > 0 && k >= q
    ensures q + k % q <= k
  {
    assert k == k / q * q + k % q;
    Multiple(k / q, q);
  }

  lemma CopiesThenNext(n: nat, k: nat, m: nat)
    requires n > 0 && m > 0
    ensures CopiesLeft(n, k, m) == CopiesLeft(n, CopiesNext(n, k, m), m - 1)
  {
  }

  lemma SpanOfBlocks(n: nat, q: nat, k: nat)
    requires n > 0 && q > 0
    ensures n * k < Span(q * n) <==> k < q * (if q * n < 3 then 6 else 3)
  {
    var need := if q * n < 3 then 6 else 3;
    assert Span(q * n) == need * (q * n);
    Regroup(n, need, q);
    assert need * (q * n) == (need * q) * n;
    LessTimes(k, need * q, n);
  }

  /** One pass. */
  lemma PassOfBlock(toks: seq<Token>, n: nat, k: nat, m: nat)
    requires Says(toks, n, k) && k > 0 && n <= |toks| && NoInnerRun(toks[..n]) && m > 0
    ensures var left, r := CopiesNext(n, k, m), Pass(toks, m, 0);
            Says(r, n, left) && n <= |r| && r[..n] == toks[..n] && (left == k ==> r == toks)
  {
    WithinIs(m, n);
    if m % n != 0 {
      OtherLengthsFindNothing(toks, n, k, m);
      PassChanges(toks, m, 0);
    } else {
      WholePass(toks, n, k, m / n, m);
    }
  }

  lemma WholePass(toks: seq<Token>, n: nat, k: nat, q: nat, m: nat)
    requires Says(toks, n, k) && k > 0 && n <= |toks| && q > 0 && m == q * n
    ensures var left := if k >= q * (if m < 3 then 6 else 3) then q + k % q else k;
            var r := Pass(toks, m, 0);
            Says(r, n, left) && n <= |r| && r[..n] == toks[..n] && (left == k ==> r == toks)
  {
    SaysMore(toks, n, k, q);
    Multiple(q, n);
    PassOfCopies(toks, m);
    SpanOfBlocks(n, q, k);
    hide Pass, Run;
    if k >= q * (if m < 3 then 6 else 3) {
      RestBegins(n, k, q);
      FewerByGroup(k, q);
      CutSays(toks, n, k, q, |toks| - n * (k % q), k % q);
    }
  }

  lemma FewerByGroup(k: nat, q: nat)
    requires q > 0 && k >= 2 * q
    ensures q + k % q < k
  {
    assert k == k / q * q + k % q;
    assert k / q >= 2;
    Multiple(k / q - 1, q);
    assert k / q * q == (k / q - 1) * q + q;
  }

  lemma LessTimes(a: nat, b: nat, n: nat)
    requires n > 0
    ensures a < b <==> a * n < b * n
  {
    if a < b {
      assert b * n == a * n + (b - a) * n;
    } else {
      assert a * n == b * n + (a - b) * n;
    }
  }

  /** All of them. */
  lemma {:induction false} PassesOfBlock(toks: seq<Token>, n: nat, k: nat, m: nat)
    requires n > 0 && Says(toks, n, k) && k > 0 && n <= |toks| && NoInnerRun(toks[..n])
    ensures var r, left := PassesFrom(toks, m), CopiesLeft(n, k, m);
            Says(r, n, left) && 0 < left <= k && n <= |r| && r[..n] == toks[..n] && (left == k ==> r == toks)
    decreases m
  {
    hide Says, NoInnerRun, Pass, CopiesNext;
    if m > 0 {
      PassOfBlock(toks, n, k, m);
      CopiesThenNext(n, k, m);
      PassesOfBlock(Pass(toks, m, 0), n, CopiesNext(n, k, m), m - 1);
    }
  }

  // ---- On texts ----

  lemma {:induction false} JoinedConcat(a: seq<Token>, b: seq<Token>)
    ensures Joined(a + b) == Joined(a) + Joined(b)
    decreases |b|
  {
    if b == [] {
      assert a + b == a;
    } else {
      assert (a + b)[..|a + b| - 1] == a + b[..|b| - 1];
      JoinedConcat(a, b[..|b| - 1]);
    }
  }

  /** Every token says something, without a space in it. */
  predicate AllSay(toks: seq<Token>) {
    forall i | 0 <= i < |toks| :: toks[i].text != "" && SpaceFree(toks[i].text)
  }

  lemma WellCutSay(toks: seq<Token>, ideograph: char -> bool)
    requires WellCut(toks, ideograph)
    ensures AllSay(toks)
  {
    forall i | 0 <= i < |toks|
      ensures toks[i].text != "" && SpaceFree(toks[i].text)
    {
      TokenSays(toks, i, ideograph);
    }
  }

  lemma KeptSay(toks: seq<Token>)
    requires AllSay(toks)
    ensures AllSay(Collapsed(toks))
  {
    hide Collapsed, SpaceFree;
    CollapseKeeps(toks);
    var at :| PicksAt(at, Collapsed(toks), toks);
  }

  /** A text is longer, trimmed or not, than its first tokens. */
  lemma LongerThanFirst(toks: seq<Token>, n: nat)
    requires 0 < n < |toks| && AllSay(toks)
    ensures |TrimSpace(Joined(toks))| > |Joined(toks[..n])|
    ensures |Joined(toks)| > |Joined(toks[..n])|
  {
    hide IsSpace;
    var s, head := Joined(toks), Joined(toks[..n]);
    assert toks[..n] + toks[n..] == toks;
    JoinedConcat(toks[..n], toks[n..]);
    JoinedStarts(toks[..n]);
    JoinedStarts(toks[n..]);
    assert s[0] == toks[0].text[0] && s[|head|] == toks[n].text[0];
    assert !IsSpace(s[0]) && !IsSpace(s[|head|]);
    assert TrimLeft(s) == s;
    TrimRightPrefix(s);
  }

  lemma JoinedStarts(toks: seq<Token>)
    requires toks != [] && toks[0].text != ""
    ensures Joined(toks) != "" && Joined(toks)[0] == toks[0].text[0]
  {
    assert [toks[0]] + toks[1..] == toks;
    JoinedConcat([toks[0]], toks[1..]);
    assert [toks[0]][..0] == [];
    assert Joined([toks[0]]) == toks[0].text + toks[0].sep;
  }

  lemma TrimsShorter(s: string)
    ensures |TrimSpace(s)| <= |s| && |TrimLeft(s)| <= |s|
  {
    TrimLeftSuffix(s);
    TrimRightPrefix(TrimLeft(s));
  }

  /** A line that is a block said k times is left with that many copies of it, its first block as it was; if those
      are all, it comes back as it is, and otherwise trimmed. */
  lemma BlockSaidAgain(text: string, ideograph: char -> bool, n: nat, k: nat)
    requires var toks := TokensOf(text, ideograph);
             1 <= n <= 40 && k > 0 && Says(toks, n, k) && n <= |toks| && NoInnerRun(toks[..n])
    ensures var toks, left := TokensOf(text, ideograph), CopiesLeft(n, k, 40);
            var kept := Collapsed(toks);
            && 0 < left <= k && Says(kept, n, left) && n <= |kept| && kept[..n] == toks[..n]
            && CollapsedText(text, ideograph) == if left == k then text else TrimSpace(Joined(kept))
  {
    var toks, left := TokensOf(text, ideograph), CopiesLeft(n, k, 40);
    PassesOfBlock(toks, n, k, 40);
    CollapsedIs(toks);
    GuardIs(text, ideograph);
    SaysLength(toks, n, k);
    SaysLength(Collapsed(toks), n, left);
    hide *;
    LengthGrows(n, left, k);
    FewTokensKeep(toks);
  }

  lemma CollapsedIs(toks: seq<Token>)
    ensures Collapsed(toks) == PassesFrom(toks, 40)
  {
  }

  lemma GuardIs(text: string, ideograph: char -> bool)
    ensures var toks := TokensOf(text, ideograph);
            CollapsedText(text, ideograph) == if |toks| < 6 || |Collapsed(toks)| == |toks| then text
                                              else TrimSpace(Joined(Collapsed(toks)))
  {
    hide TokensOf, Collapsed, TrimSpace, Joined;
  }

  lemma LengthGrows(n: nat, left: nat, k: nat)
    requires n > 0
    ensures n * left < n * k <==> left < k
    ensures n * left == n * k <==> left == k
  {
    LessTimes(left, k, n);
    LessTimes(k, left, n);
  }

  /** Fewer than six tokens have no run. */
  lemma FewTokensKeep(toks: seq<Token>)
    ensures |toks| < 6 ==> Collapsed(toks) == toks
  {
    if |toks| < 6 {
      hide Collapsed;
      CollapseKeeps(toks);
    }
  }

  /** Said twice or more, the block comes back once, and trimmed, exactly when the passes leave one copy. */
  lemma ComesBackOnceExactly(text: string, ideograph: char -> bool, n: nat, k: nat)
    requires var toks := TokensOf(text, ideograph);
             1 <= n <= 40 && k >= 2 && Says(toks, n, k) && n <= |toks| && NoInnerRun(toks[..n])
    ensures CollapsedText(text, ideograph) == TrimSpace(Joined(TokensOf(text, ideograph)[..n]))
            <==> CopiesLeft(n, k, 40) == 1
  {
    SaysLength(TokensOf(text, ideograph), n, k);
    SaysLength(Collapsed(TokensOf(text, ideograph)), n, CopiesLeft(n, k, 40));
    var toks, left := TokensOf(text, ideograph), CopiesLeft(n, k, 40);
    var kept := Collapsed(toks);
    BlockSaidAgain(text, ideograph, n, k);
    JoinOfTokens(text, ideograph);
    WellCutSay(toks, ideograph);
    KeptSay(toks);
    LengthOfCopies(n, left);
    LengthOfCopies(n, k);
    hide *;
    TrimsShorter(Joined(toks[..n]));
    TrimsShorter(text);
    if left == 1 {
      assert |kept| == n && kept == toks[..n];
    } else {
      LongerThanFirst(kept, n);
      LongerThanFirst(toks, n);
    }
  }

  lemma SaysLength(toks: seq<Token>, n: nat, k: nat)
    ensures Says(toks, n, k) ==> |toks| == n * k
  {
  }

  lemma LengthOfCopies(n: nat, k: nat)
    requires n > 0
    ensures k == 1 ==> n * k == n
    ensures k > 1 ==> n * k > n
  {
    LessTimes(1, k, n);
  }

  // ---- How many copies are left ----

  lemma {:induction false} SmallerPassesKeep(n: nat, k: nat, m: nat)
    requires n > 0 && m < n
    ensures CopiesLeft(n, k, m) == k
  {
    if m > 0 {
      CopiesThenNext(n, k, m);
      QuotientIs(m, n, 0, m);
      SmallerPassesKeep(n, k, m - 1);
      hide CopiesLeft;
    }
  }

  lemma TwoBlocks(m: nat, n: nat)
    requires n > 0 && m > n && m % n == 0
    ensures m / n >= 2 && m >= 2 * n
  {
    assert m == m / n * n;
    if m / n >= 2 {
      Multiple(m / n - 1, n);
      assert m / n * n == (m / n - 1) * n + n;
    }
  }

  /** While there are too few copies for two blocks to be taken for one, only the block's own pass can find them. */
  lemma {:induction false} OwnPassAlone(n: nat, k: nat, m: nat)
    requires n >= 3 && m >= n && (k < 6 || m < 2 * n)
    ensures CopiesLeft(n, k, m) == if k >= 3 then 1 else k
  {
    hide CopiesLeft;
    CopiesThenNext(n, k, m);
    if m > n {
      if m % n == 0 {
        TwoBlocks(m, n);
      }
      OwnPassAlone(n, k, m - 1);
    } else {
      QuotientIs(m, n, 1, 0);
      SmallerPassesKeep(n, if k >= 3 then 1 else k, m - 1);
    }
  }

  /** What is left is less than what makes a run. */
  lemma {:induction false} CopiesLeftAreFew(n: nat, k: nat, m: nat)
    requires 0 < n <= m
    ensures CopiesLeft(n, k, m) < if n < 3 then 6 else 3
    decreases m
  {
    if m > n {
      CopiesLeftAreFew(n, CopiesNext(n, k, m), m - 1);
      CopiesThenNext(n, k, m);
    } else {
      QuotientIs(m, n, 1, 0);
      SmallerPassesKeep(n, CopiesNext(n, k, m), m - 1);
      CopiesThenNext(n, k, m);
    }
  }

  lemma {:induction false} SinglesBecomeOne(k: nat, m: nat)
    requires m >= 1 && k <= 8
    ensures CopiesLeft(1, k, m) == if k >= 6 then 1 else k
  {
    if m > 1 {
      assert m / 1 == m && m % 1 == 0;
      SinglesBecomeOne(k, m - 1);
    } else {
      assert CopiesLeft(1, 1, 0) == 1;
    }
  }

  lemma {:induction false} PairsStayTwo(k: nat, m: nat)
    requires k >= 2 && (m >= 4 || k < 6)
    ensures CopiesLeft(2, k, m) >= 2
    decreases m
  {
    if m > 0 {
      CopiesThenNext(2, k, m);
      PairsStayTwo(CopiesNext(2, k, m), m - 1);
    }
  }

  /** One copy is left of six to eight of a single token, of three to five of a block of three or more, and of any
      three or more of a block of over twenty; never of a block of two. */
  lemma OneIsLeft(n: nat, k: nat)
    requires 1 <= n <= 40 && k >= 2
    ensures n == 1 && 6 <= k <= 8 ==> CopiesLeft(n, k, 40) == 1
    ensures n >= 3 && 3 <= k <= 5 ==> CopiesLeft(n, k, 40) == 1
    ensures n > 20 && k >= 3 ==> CopiesLeft(n, k, 40) == 1
    ensures n == 2 ==> CopiesLeft(n, k, 40) >= 2
    ensures k < (if n < 3 then 6 else 3) ==> CopiesLeft(n, k, 40) == k
  {
    hide CopiesLeft;
    if n == 1 {
      if k <= 8 {
        SinglesBecomeOne(k, 40);
      }
    } else if n == 2 {
      PairsStayTwo(k, 40);
      if k < 6 {
        FewPairsKeep(k, 40);
      }
    } else if k < 6 || n > 20 {
      OwnPassAlone(n, k, 40);
    }
  }

  lemma {:induction false} FewPairsKeep(k: nat, m: nat)
    requires k < 6
    ensures CopiesLeft(2, k, m) == k
  {
    if m > 0 {
      FewPairsKeep(k, m - 1);
    }
  }

  lemma {:induction false} LargePassesKeep(n: nat, k: nat, m: nat, to: nat)
    requires n > 0 && to <= m && k * n < 3 * (to + 1)
    ensures CopiesLeft(n, k, m) == CopiesLeft(n, k, to)
    decreases m
  {
    if m > to {
      CopiesThenNext(n, k, m);
      NothingNext(n, k, m, to);
      hide CopiesLeft, CopiesNext;
      LargePassesKeep(n, k, m - 1, to);
    }
  }

  lemma NothingNext(n: nat, k: nat, m: nat, to: nat)
    requires n > 0 && to < m && k * n < 3 * (to + 1)
    ensures CopiesNext(n, k, m) == k
  {
    var q := m / n;
    if m % n == 0 && q > 0 {
      assert m == q * n;
      TooFewFor(n, k, q, to);
    }
  }

  lemma TooFewFor(n: nat, k: nat, q: nat, to: nat)
    requires n > 0 && k * n < 3 * (to + 1) && q * n > to
    ensures k < 3 * q
  {
    LessTimes(k, 3 * q, n);
    assert (3 * q) * n == 3 * (q * n);
  }

  /** A word said nine times is left three times, and a phrase of three words said six times twice. */
  lemma LoopsCanBeLeft()
    ensures CopiesLeft(1, 9, 40) == 3 && CopiesLeft(3, 6, 40) == 2
  {
    LargePassesKeep(1, 9, 40, 3);
    assert CopiesLeft(1, 9, 3) == CopiesLeft(1, 3, 2);
    SinglesBecomeOne(3, 2);
    LargePassesKeep(3, 6, 40, 6);
    assert CopiesLeft(3, 6, 6) == CopiesLeft(3, 2, 5);
    OwnPassAlone(3, 2, 5);
  }

  // ---- A text without a run ----

  /** A pass that takes tokens out makes the text shorter. */
  lemma {:induction false} PassShortens(toks: seq<Token>, n: nat, i: nat)
    requires n > 0 && AllSay(toks)
    ensures AllSay(Pass(toks, n, i))
    ensures Pass(toks, n, i) == toks || |Joined(Pass(toks, n, i))| < |Joined(toks)|
    decreases |toks|, |toks| - i
  {
    hide LoopEnd, Joined, SpaceFree;
    if i + Span(n) <= |toks| {
      var e := LoopEnd(toks, i, n, i + n);
      if e - i < Span(n) {
        PassShortens(toks, n, i + 1);
      } else {
        CutShortens(toks, i, n, e);
        PassShortens(Cut(toks, i, n, e), n, i);
      }
    }
  }

  lemma CutShortens(toks: seq<Token>, i: nat, n: nat, e: nat)
    requires i + n < e <= |toks| && AllSay(toks)
    ensures |Joined(Cut(toks, i, n, e))| < |Joined(toks)| && AllSay(Cut(toks, i, n, e))
  {
    var a, b, c := toks[..i + n], toks[i + n..e], toks[e..];
    assert a + b + c == toks;
    JoinedConcat(a + b, c);
    JoinedConcat(a, b);
    JoinedConcat(a, c);
    JoinedStarts(b);
  }

  lemma {:induction false} PassesShorten(toks: seq<Token>, n: nat)
    requires AllSay(toks)
    ensures PassesFrom(toks, n) == toks
            || (|PassesFrom(toks, n)| < |toks| && |Joined(PassesFrom(toks, n))| < |Joined(toks)|)
    decreases n
  {
    hide Joined, Pass, AllSay;
    if n > 0 {
      PassShortens(toks, n, 0);
      PassChanges(toks, n, 0);
      PassesShorten(Pass(toks, n, 0), n - 1);
    }
  }

  /** A text comes back as it is exactly when its tokens have no run of any length. */
  lemma UnchangedExactly(text: string, ideograph: char -> bool)
    ensures CollapsedText(text, ideograph) == text <==>
            forall n: nat | 1 <= n <= 40 :: RunFree(TokensOf(text, ideograph), n)
  {
    var toks := TokensOf(text, ideograph);
    JoinOfTokens(text, ideograph);
    WellCutSay(toks, ideograph);
    PassesShorten(toks, REPEAT_MAX_BLOCK);
    CollapseKeeps(toks);
    FewTokensKeep(toks);
    hide PassesFrom, RunFree, TokensOf, AllSay, Joined, TrimSpace, TrimLeft;
    TrimsShorter(Joined(Collapsed(toks)));
    TrimsShorter(text);
  }

  // ---- What is left, cut again ----

  /** Each token is a word or one ideograph, with nothing but space after it. */
  predicate AreTokens(toks: seq<Token>, ideograph: char -> bool) {
    forall i | 0 <= i < |toks| ::
      (IsWord(toks[i].text, ideograph) || IsGlyph(toks[i].text, ideograph)) && Blank(toks[i].sep)
  }

  /** The token and the next read as one word: both are words, and no space is left between them. */
  predicate RunsOn(t: Token, next: Token, ideograph: char -> bool) {
    IsWord(t.text, ideograph) && t.sep == "" && IsWord(next.text, ideograph)
  }

  /** The tokens with words that run on put together. */
  function Merged(toks: seq<Token>, ideograph: char -> bool): (r: seq<Token>)
    ensures |r| <= |toks| && (toks != [] ==> r != [])
  {
    if toks == [] then []
    else
      var front, t := Merged(toks[..|toks| - 1], ideograph), toks[|toks| - 1];
      if front != [] && RunsOn(front[|front| - 1], t, ideograph) then
        front[..|front| - 1] + [Token(front[|front| - 1].text + t.text, t.sep)]
      else front + [t]
  }

  /** What the scanner has when the text so far is of these tokens. */
  function Standing(toks: seq<Token>, ideograph: char -> bool): Scan {
    if toks != [] && toks[|toks| - 1].sep == "" && IsWord(toks[|toks| - 1].text, ideograph) then
      Scan(toks[..|toks| - 1], toks[|toks| - 1].text)
    else Scan(toks, "")
  }

  lemma StandingFlushed(toks: seq<Token>, ideograph: char -> bool)
    ensures Standing(toks, ideograph).Flushed() == toks
  {
    if toks != [] {
      assert toks[..|toks| - 1] + [toks[|toks| - 1]] == toks;
    }
  }

  lemma ScannedNext(s: string, r: char, ideograph: char -> bool)
    ensures Scanned(s + [r], ideograph) == ScanNext(Scanned(s, ideograph), r, ideograph)
  {
    assert (s + [r])[..|s|] == s;
  }

  lemma {:induction false} ScannedWord(s: string, w: string, ideograph: char -> bool)
    requires forall i | 0 <= i < |w| :: !IsSpace(w[i]) && !ideograph(w[i])
    ensures var scan := Scanned(s, ideograph);
            Scanned(s + w, ideograph) == Scan(scan.out, scan.word + w)
    decreases |w|
  {
    hide IsSpace, Scanned;
    var scan := Scanned(s, ideograph);
    if w == "" {
      assert s + w == s && scan.word + w == scan.word;
    } else {
      var front := w[..|w| - 1];
      ScannedWord(s, front, ideograph);
      assert s + w == (s + front) + [w[|w| - 1]];
      ScannedNext(s + front, w[|w| - 1], ideograph);
      assert scan.word + front + [w[|w| - 1]] == scan.word + w;
    }
  }

  /** Space after a token is its separator. */
  lemma {:induction false} ScannedSpace(s: string, sep: string, front: seq<Token>, text: string, ideograph: char -> bool)
    requires Scanned(s, ideograph).Flushed() == front + [Token(text, "")] && Blank(sep) && sep != ""
    ensures Scanned(s + sep, ideograph) == Scan(front + [Token(text, sep)], "")
    decreases |sep|
  {
    hide IsSpace, Scanned;
    var before := sep[..|sep| - 1];
    var r := sep[|sep| - 1];
    assert s + sep == (s + before) + [r];
    ScannedNext(s + before, r, ideograph);
    if before == "" {
      assert s + before == s;
      assert "" + [r] == sep;
      ScanOfSpace(Scanned(s, ideograph), r, ideograph);
      assert (front + [Token(text, "")])[..|front|] == front;
    } else {
      ScannedSpace(s, before, front, text, ideograph);
      ScanOfSpace(Scanned(s + before, ideograph), r, ideograph);
      assert (front + [Token(text, before)])[..|front|] == front;
      assert before + [r] == sep;
    }
  }

  /** Cutting tokens that were joined gives them back, with the words that run on put together. */
  lemma {:induction false} CutAgain(toks: seq<Token>, ideograph: char -> bool)
    requires AreTokens(toks, ideograph)
    ensures Scanned(Joined(toks), ideograph) == Standing(Merged(toks, ideograph), ideograph)
    ensures TokensOf(Joined(toks), ideograph) == Merged(toks, ideograph)
  {
    StandingFlushed(Merged(toks, ideograph), ideograph);
    if toks != [] {
      var before, t := toks[..|toks| - 1], toks[|toks| - 1];
      CutAgain(before, ideograph);
      var s, merged := Joined(before), Merged(before, ideograph);
      StandingFlushed(merged, ideograph);
      assert Joined(toks) == s + t.text + t.sep;
      CutOneMore(s, merged, t, ideograph);
      assert Merged(toks, ideograph) == OneMoreMerged(merged, t, ideograph);
      hide Scanned;
    }
  }

  function OneMoreMerged(front: seq<Token>, t: Token, ideograph: char -> bool): (r: seq<Token>)
    ensures r != []
  {
    if front != [] && RunsOn(front[|front| - 1], t, ideograph) then
      front[..|front| - 1] + [Token(front[|front| - 1].text + t.text, t.sep)]
    else front + [t]
  }

  lemma CutOneMore(s: string, merged: seq<Token>, t: Token, ideograph: char -> bool)
    requires Scanned(s, ideograph) == Standing(merged, ideograph)
    requires (IsWord(t.text, ideograph) || IsGlyph(t.text, ideograph)) && Blank(t.sep)
    ensures Scanned(s + t.text + t.sep, ideograph) == Standing(OneMoreMerged(merged, t, ideograph), ideograph)
  {
    hide IsSpace, Scanned, Blank;
    StandingFlushed(merged, ideograph);
    var bare := OneMoreMerged(merged, Token(t.text, ""), ideograph);
    assert Scanned(s + t.text, ideograph) == Standing(bare, ideograph) by {
      CutOneText(s, merged, t.text, ideograph);
    }
    StandingFlushed(bare, ideograph);
    var last := bare[|bare| - 1];
    assert bare == bare[..|bare| - 1] + [Token(last.text, "")];
    var more := OneMoreMerged(merged, t, ideograph);
    assert more == bare[..|bare| - 1] + [Token(last.text, t.sep)];
    if t.sep == "" {
      assert s + t.text + t.sep == s + t.text;
    } else {
      ScannedSpace(s + t.text, t.sep, bare[..|bare| - 1], last.text, ideograph);
    }
  }

  lemma CutOneText(s: string, merged: seq<Token>, text: string, ideograph: char -> bool)
    requires Scanned(s, ideograph) == Standing(merged, ideograph)
    requires IsWord(text, ideograph) || IsGlyph(text, ideograph)
    ensures Scanned(s + text, ideograph) == Standing(OneMoreMerged(merged, Token(text, ""), ideograph), ideograph)
  {
    hide IsSpace, Scanned;
    StandingFlushed(merged, ideograph);
    if IsWord(text, ideograph) {
      ScannedWord(s, text, ideograph);
      if merged != [] && RunsOn(merged[|merged| - 1], Token(text, ""), ideograph) {
        WordsJoin(merged[|merged| - 1].text, text, ideograph);
      } else {
        assert "" + text == text;
      }
    } else {
      assert text == [text[0]];
      ScannedNext(s, text[0], ideograph);
      assert !IsWord(text, ideograph);
    }
  }

  lemma WordsJoin(a: string, b: string, ideograph: char -> bool)
    requires IsWord(a, ideograph) && IsWord(b, ideograph)
    ensures IsWord(a + b, ideograph)
  {
    hide IsSpace;
  }

  /** Nothing runs on exactly when two words never stand together without a space. */
  lemma {:induction false} MergedExactly(toks: seq<Token>, ideograph: char -> bool)
    requires AreTokens(toks, ideograph)
    ensures Merged(toks, ideograph) == toks <==> WellCut(toks, ideograph)
  {
    hide IsWord, IsGlyph, Blank;
    if toks != [] {
      var before, t := toks[..|toks| - 1], toks[|toks| - 1];
      assert before + [t] == toks;
      MergedExactly(before, ideograph);
      if WellCut(toks, ideograph) {
        WellCutLast(before, t, ideograph);
      } else if Merged(toks, ideograph) == toks {
        assert Merged(before, ideograph) == before;
        assert !(before != [] && RunsOn(before[|before| - 1], t, ideograph));
        WellCutSnoc(before, t, ideograph);
      }
    }
  }

  /** The tokens the guard keeps of a text. */
  function Kept(text: string, ideograph: char -> bool): seq<Token> {
    Collapsed(TokensOf(text, ideograph))
  }

  lemma KeptAreTokens(text: string, ideograph: char -> bool)
    ensures AreTokens(Kept(text, ideograph), ideograph)
  {
    hide IsWord, IsGlyph, Blank, Collapsed, TokensOf;
    var toks := TokensOf(text, ideograph);
    JoinOfTokens(text, ideograph);
    CollapseKeeps(toks);
    var at :| PicksAt(at, Collapsed(toks), toks);
  }

  predicate SameTexts(a: seq<Token>, b: seq<Token>) {
    |a| == |b| && forall i | 0 <= i < |a| :: a[i].text == b[i].text
  }

  lemma SameTextsSameRuns(a: seq<Token>, b: seq<Token>, n: nat)
    requires SameTexts(a, b)
    ensures RunFree(a, n) <==> RunFree(b, n)
  {
    forall i: nat
      ensures Run(a, i, n, Span(n)) <==> Run(b, i, n, Span(n))
    {
      assert forall x: nat | x + n < |a| :: Recurs(a, x, n) <==> Recurs(b, x, n);
    }
  }

  lemma StartsSolid(toks: seq<Token>, ideograph: char -> bool)
    requires toks != [] && AreTokens(toks, ideograph)
    ensures Joined(toks) != "" && !IsSpace(Joined(toks)[0])
  {
    TokenIs(toks, 0, ideograph);
    hide *;
    JoinedStarts(toks);
  }

  /** Trimming takes no more than the last separator. */
  lemma TrimmedJoin(front: seq<Token>, last: Token, ideograph: char -> bool)
    requires AreTokens(front + [last], ideograph)
    ensures TrimSpace(Joined(front + [last])) == Joined(front + [Token(last.text, "")])
  {
    StartsSolid(front + [last], ideograph);
    TokenIs(front + [last], |front|, ideograph);
    hide *;
    JoinedSnoc(front, last);
    JoinedSnoc(front, Token(last.text, ""));
    JoinedTrims(Joined(front + [last]), Joined(front), last.text, last.sep);
  }

  lemma TokenIs(toks: seq<Token>, k: nat, ideograph: char -> bool)
    requires k < |toks| && AreTokens(toks, ideograph)
    ensures var t := toks[k];
            t.text != "" && SpaceFree(t.text) && !IsSpace(t.text[0]) && Blank(t.sep)
  {
    hide IsSpace, Blank;
  }

  lemma JoinedTrims(s: string, front: string, text: string, sep: string)
    requires text != "" && SpaceFree(text) && Blank(sep)
    requires s == front + text + sep && !IsSpace(s[0])
    ensures TrimSpace(s) == front + text + ""
  {
    hide IsSpace;
    var kept := front + text;
    assert TrimLeft(s) == s;
    assert kept[|kept| - 1] == text[|text| - 1];
    TrimRightTo(kept, sep);
  }

  lemma {:induction false} TrimRightTo(s: string, sep: string)
    requires s != "" && !IsSpace(s[|s| - 1]) && Blank(sep)
    ensures TrimRight(s + sep) == s
    decreases |sep|
  {
    hide IsSpace;
    if sep == "" {
      assert s + sep == s;
    } else {
      assert (s + sep)[..|s + sep| - 1] == s + sep[..|sep| - 1];
      TrimRightTo(s, sep[..|sep| - 1]);
    }
  }

  lemma OnlyTextRunsOn(before: Token, t: Token, ideograph: char -> bool)
    ensures RunsOn(before, t, ideograph) == RunsOn(before, Token(t.text, ""), ideograph)
  {
  }

  lemma MergedNext(front: seq<Token>, t: Token, ideograph: char -> bool)
    ensures Merged(front + [t], ideograph) == OneMoreMerged(Merged(front, ideograph), t, ideograph)
  {
    assert (front + [t])[..|front|] == front;
  }

  /** Putting words that run on together is the same whatever follows the last. */
  lemma MergedTexts(front: seq<Token>, t: Token, ideograph: char -> bool)
    ensures SameTexts(Merged(front + [Token(t.text, "")], ideograph), Merged(front + [t], ideograph))
  {
    MergedNext(front, t, ideograph);
    MergedNext(front, Token(t.text, ""), ideograph);
    hide Merged, RunsOn;
    var merged := Merged(front, ideograph);
    if merged != [] {
      OnlyTextRunsOn(merged[|merged| - 1], t, ideograph);
    }
  }

  /** The tokens of the result are those kept, with the words that now run on put together; so it holds no six
      equal tokens in a row exactly when those do not. */
  lemma ResultReads(text: string, ideograph: char -> bool)
    ensures SameTexts(TokensOf(CollapsedText(text, ideograph), ideograph), Merged(Kept(text, ideograph), ideograph))
    ensures RunFree(TokensOf(CollapsedText(text, ideograph), ideograph), 1)
            <==> RunFree(Merged(Kept(text, ideograph), ideograph), 1)
  {
    var toks, kept := TokensOf(text, ideograph), Kept(text, ideograph);
    ResultIs(text, ideograph);
    KeptAreTokens(text, ideograph);
    JoinOfTokens(text, ideograph);
    if kept == toks {
      MergedExactly(toks, ideograph);
      SameTextsItself(toks);
    } else {
      JoinReads(kept, ideograph);
    }
    hide *;
    SameTextsSameRuns(TokensOf(CollapsedText(text, ideograph), ideograph), Merged(kept, ideograph), 1);
  }

  lemma ResultIs(text: string, ideograph: char -> bool)
    ensures var kept := Kept(text, ideograph);
            if kept == TokensOf(text, ideograph) then CollapsedText(text, ideograph) == text
            else kept != [] && CollapsedText(text, ideograph) == TrimSpace(Joined(kept))
  {
    hide PassesFrom, TokensOf, Joined, TrimSpace;
    var toks := TokensOf(text, ideograph);
    assert AllSay(toks) by {
      JoinOfTokens(text, ideograph);
      WellCutSay(toks, ideograph);
    }
    PassesShorten(toks, REPEAT_MAX_BLOCK);
    FewTokensKeep(toks);
    CollapseKeeps(toks);
  }

  lemma JoinReads(kept: seq<Token>, ideograph: char -> bool)
    requires kept != [] && AreTokens(kept, ideograph)
    ensures SameTexts(TokensOf(TrimSpace(Joined(kept)), ideograph), Merged(kept, ideograph))
  {
    hide *;
    var front, last := kept[..|kept| - 1], kept[|kept| - 1];
    assert front + [last] == kept;
    TrimmedJoin(front, last, ideograph);
    BareAreTokens(front, last, ideograph);
    CutAgain(front + [Token(last.text, "")], ideograph);
    MergedTexts(front, last, ideograph);
  }

  lemma SameTextsItself(toks: seq<Token>)
    ensures SameTexts(toks, toks)
  {
  }

  lemma BareAreTokens(front: seq<Token>, t: Token, ideograph: char -> bool)
    requires AreTokens(front + [t], ideograph)
    ensures AreTokens(front + [Token(t.text, "")], ideograph)
  {
    hide IsWord, IsGlyph;
    var toks := front + [t];
    assert toks[|front|] == t && forall i | 0 <= i < |front| :: toks[i] == front[i];
  }

  /** When no two words of those kept run on, the result reads as those and holds no six equal tokens in a row. */
  lemma ResultHoldsNoRunOfSingles(text: string, ideograph: char -> bool)
    requires WellCut(Kept(text, ideograph), ideograph)
    ensures SameTexts(TokensOf(CollapsedText(text, ideograph), ideograph), Kept(text, ideograph))
    ensures RunFree(TokensOf(CollapsedText(text, ideograph), ideograph), 1)
  {
    ResultReads(text, ideograph);
    KeptAreTokens(text, ideograph);
    MergedExactly(Kept(text, ideograph), ideograph);
    LastPassIsForSingles(TokensOf(text, ideograph), REPEAT_MAX_BLOCK);
  }

  /** That is so of any text without an ideograph. */
  lemma WordsNeverRunOn(text: string, ideograph: char -> bool)
    requires forall i | 0 <= i < |text| :: !ideograph(text[i])
    ensures WellCut(Kept(text, ideograph), ideograph)
  {
    hide Collapsed, TokensOf, Blank;
    var toks, kept := TokensOf(text, ideograph), Kept(text, ideograph);
    JoinOfTokens(text, ideograph);
    KeptAreTokens(text, ideograph);
    CollapseKeeps(toks);
    var at :| PicksAt(at, kept, toks);
    forall i | 0 <= i < |kept| - 1
      ensures kept[i].sep != ""
    {
      assert at[i] < at[i + 1];
      AllWords(text, ideograph, at[i]);
      AllWords(text, ideograph, at[i] + 1);
    }
  }

  /** A text without an ideograph has words only. */
  lemma AllWords(text: string, ideograph: char -> bool, k: nat)
    requires k < |TokensOf(text, ideograph)| && forall i | 0 <= i < |text| :: !ideograph(text[i])
    ensures IsWord(TokensOf(text, ideograph)[k].text, ideograph)
  {
    hide TokensOf, IsSpace;
    JoinOfTokens(text, ideograph);
    TokenFromText(text, ideograph, k);
  }

  lemma TokenFromText(text: string, ideograph: char -> bool, k: nat)
    requires k < |TokensOf(text, ideograph)|
    ensures var w := TokensOf(text, ideograph)[k].text; forall i | 0 <= i < |w| :: w[i] in text
  {
    hide TokensOf, IsSpace;
    JoinOfTokens(text, ideograph);
    TokenOccurs(TokensOf(text, ideograph), k);
    TrimLeftSuffix(text);
  }

  lemma {:induction false} TokenOccurs(toks: seq<Token>, k: nat)
    requires k < |toks|
    ensures forall i | 0 <= i < |toks[k].text| :: toks[k].text[i] in Joined(toks)
  {
    if k < |toks| - 1 {
      TokenOccurs(toks[..|toks| - 1], k);
    }
  }

  // ---- A result that holds a run ----

  /** Two ideographs and two words. */
  predicate Four(g: string, h: string, a: string, b: string, ideograph: char -> bool) {
    IsGlyph(g, ideograph) && IsGlyph(h, ideograph) && IsWord(a, ideograph) && IsWord(b, ideograph) && g != h
  }

  /** g h a three times, and then b ab ab ab ab ab; only words have a space after them, and of the a's the last. */
  function Spoken(g: string, h: string, a: string, b: string): (toks: seq<Token>)
    ensures |toks| == 15
  {
    var (x, y, z, ab) := (Token(g, ""), Token(h, ""), Token(a, ""), Token(a + b, " "));
    [x, y, z, x, y, z, x, y, Token(a, " "), Token(b, " "), ab, ab, ab, ab, ab]
  }

  /** g h a b ab ab ab ab ab: nothing is left between the a and the b. */
  function Left(g: string, h: string, a: string, b: string): (toks: seq<Token>)
    ensures |toks| == 9
  {
    var ab := Token(a + b, " ");
    [Token(g, ""), Token(h, ""), Token(a, ""), Token(b, " "), ab, ab, ab, ab, ab]
  }

  lemma FourDiffer(g: string, h: string, a: string, b: string, ideograph: char -> bool)
    requires Four(g, h, a, b, ideograph)
    ensures g != h && g != a && g != b && h != b && b != a + b && g != a + b && a != "" && b != ""
    ensures !IsWord(g, ideograph) && !IsWord(h, ideograph) && IsWord(a + b, ideograph)
  {
    hide IsSpace;
    assert |a + b| > |b|;
    assert (a + b)[0] == a[0];
    WordsJoin(a, b, ideograph);
  }

  lemma SpokenFindsNothing(g: string, h: string, a: string, b: string, n: nat)
    requires n >= 4 && g != h && g != a
    ensures RunFree(Spoken(g, h, a, b), n)
  {
    var toks := Spoken(g, h, a, b);
    assert toks[0].text == g && toks[3].text == g && toks[5].text == a && toks[7].text == h;
    hide Spoken;
    forall i: nat
      ensures !Run(toks, i, n, Span(n))
    {
      if i + Span(n) <= 15 {
        assert !Recurs(toks, if n == 5 then 0 else 3, n);
      }
    }
  }

  lemma SpokenIsCut(g: string, h: string, a: string, b: string)
    requires g != b
    ensures Pass(Spoken(g, h, a, b), 3, 0) == Left(g, h, a, b)
  {
    var toks, left := Spoken(g, h, a, b), Left(g, h, a, b);
    assert toks[0].text == toks[3].text == toks[6].text == g && toks[1].text == toks[4].text == toks[7].text == h;
    assert toks[2].text == toks[5].text == toks[8].text == a && toks[9].text == b;
    assert toks[..3] + toks[9..] == left;
    assert left[0].text == g && left[3].text == b;
    hide Spoken, Left;
    assert SameText(toks, 0, 3, 3) && SameText(toks, 0, 6, 3);
    assert !SameText(toks, 0, 9, 3) by {
      assert toks[0].text != toks[0 + 9 - 0].text;
    }
    assert LoopEnd(toks, 0, 3, 9) == 9;
    assert LoopEnd(toks, 0, 3, 6) == 9;
    assert LoopEnd(toks, 0, 3, 3) == 9;
    assert Pass(toks, 3, 0) == Pass(left, 3, 0);
    NoRunAtStart(left);
  }

  lemma NoRunAtStart(left: seq<Token>)
    requires |left| == 9 && left[0].text != left[3].text
    ensures Pass(left, 3, 0) == left
  {
    forall i: nat
      ensures !Run(left, i, 3, 9)
    {
      if i == 0 {
        assert !Recurs(left, 0, 3);
      }
    }
    PassChanges(left, 3, 0);
  }

  lemma LeftHasNoRun(g: string, h: string, a: string, b: string, n: nat)
    requires 1 <= n <= 2 && b != a + b
    ensures RunFree(Left(g, h, a, b), n)
  {
    var left := Left(g, h, a, b);
    assert left[3].text == b && left[4].text == a + b && left[5].text == a + b;
    hide Left;
    forall i: nat
      ensures !Run(left, i, n, Span(n))
    {
      if i + Span(n) <= 9 {
        assert !Recurs(left, 3, n);
      }
    }
  }

  lemma SpokenCollapses(g: string, h: string, a: string, b: string)
    requires g != h && g != a && g != b && b != a + b
    ensures Collapsed(Spoken(g, h, a, b)) == Left(g, h, a, b)
  {
    var toks, left := Spoken(g, h, a, b), Left(g, h, a, b);
    forall k: nat | 3 < k <= 40
      ensures RunFree(toks, k)
    {
      SpokenFindsNothing(g, h, a, b, k);
    }
    forall k: nat | 0 < k <= 2
      ensures RunFree(left, k)
    {
      LeftHasNoRun(g, h, a, b, k);
    }
    hide Spoken, Left, RunFree, Pass;
    SkipPasses(toks, 40, 3);
    SpokenIsCut(g, h, a, b);
    SkipPasses(left, 2, 0);
    assert PassesFrom(toks, 3) == PassesFrom(left, 2);
  }

  lemma SpokenIsWellCut(g: string, h: string, a: string, b: string, ideograph: char -> bool)
    requires Four(g, h, a, b, ideograph)
    ensures WellCut(Spoken(g, h, a, b), ideograph) && AreTokens(Spoken(g, h, a, b), ideograph)
  {
    FourDiffer(g, h, a, b, ideograph);
    hide IsWord, IsGlyph;
    var toks := Spoken(g, h, a, b);
    assert Blank("") && Blank(" ");
    hide Blank;
    forall i | 0 <= i < |toks| - 1 && IsWord(toks[i].text, ideograph) && IsWord(toks[i + 1].text, ideograph)
      ensures toks[i].sep != ""
    {
    }
  }

  /** A token after a space stands alone. */
  lemma SpacedAppend(front: seq<Token>, t: Token, ideograph: char -> bool)
    requires var merged := Merged(front, ideograph); merged != [] && merged[|merged| - 1].sep != ""
    ensures Merged(front + [t], ideograph) == Merged(front, ideograph) + [t]
  {
    MergedNext(front, t, ideograph);
  }

  lemma MergedStart(g: Token, h: Token, a: Token, b: Token, ideograph: char -> bool)
    requires !IsWord(g.text, ideograph) && !IsWord(h.text, ideograph)
    requires IsWord(a.text, ideograph) && IsWord(b.text, ideograph) && a.sep == ""
    ensures Merged([g, h, a] + [b], ideograph) == [g, h, Token(a.text + b.text, b.sep)]
  {
    hide IsWord;
    MergedNext([], g, ideograph);
    MergedNext([g], h, ideograph);
    MergedNext([g, h], a, ideograph);
    MergedNext([g, h, a], b, ideograph);
    assert [] + [g] == [g] && [g] + [h] == [g, h] && [g, h] + [a] == [g, h, a];
  }

  function Times(t: Token, c: nat): (r: seq<Token>)
    ensures |r| == c && forall i | 0 <= i < c :: r[i] == t
  {
    if c == 0 then [] else Times(t, c - 1) + [t]
  }

  lemma {:induction false} SpacedRepeat(front: seq<Token>, t: Token, c: nat, ideograph: char -> bool)
    requires t.sep != ""
    requires var merged := Merged(front, ideograph); merged != [] && merged[|merged| - 1].sep != ""
    ensures Merged(front + Times(t, c), ideograph) == Merged(front, ideograph) + Times(t, c)
  {
    hide Merged;
    var merged := Merged(front, ideograph);
    if c == 0 {
      assert front + Times(t, c) == front && merged + Times(t, c) == merged;
    } else {
      SpacedRepeat(front, t, c - 1, ideograph);
      var before := front + Times(t, c - 1);
      assert front + Times(t, c) == before + [t];
      assert c == 1 ==> merged + Times(t, 0) == merged;
      SpacedAppend(before, t, ideograph);
      assert merged + Times(t, c) == merged + Times(t, c - 1) + [t];
    }
  }

  lemma LeftMerges(g: string, h: string, a: string, b: string, ideograph: char -> bool)
    requires Four(g, h, a, b, ideograph)
    ensures !RunFree(Merged(Left(g, h, a, b), ideograph), 1)
  {
    FourDiffer(g, h, a, b, ideograph);
    hide IsWord, IsGlyph;
    var x, y, z, w, ab := Token(g, ""), Token(h, ""), Token(a, ""), Token(b, " "), Token(a + b, " ");
    MergedStart(x, y, z, w, ideograph);
    SpacedRepeat([x, y, z] + [w], ab, 5, ideograph);
    assert Left(g, h, a, b) == [x, y, z] + [w] + Times(ab, 5);
    var merged := Merged(Left(g, h, a, b), ideograph);
    assert merged == [x, y, ab] + Times(ab, 5);
    hide Merged, Left;
    assert forall i | 2 <= i < 8 :: merged[i] == ab;
    assert Run(merged, 2, 1, Span(1));
  }

  /** The result can hold six equal words in a row though the guard found them and the text has no such word by
      itself: the space before the b goes with the last copy. */
  lemma ResultCanHoldARun(g: string, h: string, a: string, b: string, ideograph: char -> bool)
    requires Four(g, h, a, b, ideograph)
    ensures var text := Joined(Spoken(g, h, a, b));
            !RunFree(TokensOf(CollapsedText(text, ideograph), ideograph), 1)
  {
    var text := Joined(Spoken(g, h, a, b));
    FourDiffer(g, h, a, b, ideograph);
    SpokenIsWellCut(g, h, a, b, ideograph);
    SpokenCollapses(g, h, a, b);
    LeftMerges(g, h, a, b, ideograph);
    CutAgain(Spoken(g, h, a, b), ideograph);
    MergedExactly(Spoken(g, h, a, b), ideograph);
    ResultReads(text, ideograph);
    hide Spoken, Left, Collapsed, Merged, RunFree, TokensOf, CollapsedText;
  }

  /** There are such words. */
  lemma FourExist()
    ensures Four("g", "h", "a", "b", (c: char) => c == 'g' || c == 'h')
  {
    assert "g"[0] == 'g' && "h"[0] == 'h';
  }
}
