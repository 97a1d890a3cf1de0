/** What a call shows the engine and how its numbered reply is read back
    (internal/translate/transcript_prompt.go). */
module Prompt {
  import opened Numbers
  import opened Text

  /** A turn to translate. */
  datatype Segment = Segment(id: string, speaker: string, text: string)

  /** A turn that may be read but has no name to come back under. */
  datatype Line = Line(speaker: string, text: string)

  // ---- The prompt ----

  const HEADING := "Lines to translate:"
  const SAID_BEFORE := "What was said just before" + " (reference only; do not" + " translate or output this):"
  const LEAD_IN_HEADING := "\n" + SAID_BEFORE + "\n"

  function Labelled(speaker: string, text: string): string {
    if speaker == "" then text else "[" + speaker + "] " + text
  }

  function LeadIn(before: seq<Line>): string {
    if before == [] then ""
    else (if |before| == 1 then LEAD_IN_HEADING else LeadIn(before[..|before| - 1]))
         + Labelled(before[|before| - 1].speaker, before[|before| - 1].text) + "\n"
  }

  function NumberedLine(segments: seq<Segment>, i: nat): string
    requires i < |segments|
  {
    Itoa(i + 1) + ". " + Labelled(segments[i].speaker, segments[i].text)
  }

  function UserPrompt(segments: seq<Segment>): string {
    if segments == [] then HEADING + "\n"
    else UserPrompt(segments[..|segments| - 1]) + NumberedLine(segments, |segments| - 1) + "\n"
  }

  lemma LeadInNext(before: seq<Line>, i: nat)
    requires i < |before|
    ensures LeadIn(before[..i + 1]) ==
              (if i == 0 then LEAD_IN_HEADING else LeadIn(before[..i]))
              + Labelled(before[i].speaker, before[i].text) + "\n"
  {
    hide Labelled;
    var next := before[..i + 1];
    assert |next| == i + 1 && next[..i] == before[..i] && next[i] == before[i];
  }

  method TranscriptLeadIn(before: seq<Line>) returns (b: string)
    ensures b == LeadIn(before)
  {
    if before == [] {
      return "";
    }
    hide LeadIn, Labelled;
    b := LEAD_IN_HEADING;
    for i := 0 to |before|
      invariant b == if i == 0 then LEAD_IN_HEADING else LeadIn(before[..i])
    {
      LeadInNext(before, i);
      b := b + Labelled(before[i].speaker, before[i].text) + "\n";
    }
    assert before[..|before|] == before;
  }

  lemma UserPromptNext(segments: seq<Segment>, i: nat)
    requires i < |segments|
    ensures UserPrompt(segments[..i + 1]) ==
              UserPrompt(segments[..i]) + Itoa(i + 1) + ". " + Labelled(segments[i].speaker, segments[i].text) + "\n"
  {
    hide Labelled, Itoa;
    var next := segments[..i + 1];
    assert |next| == i + 1 && next[..i] == segments[..i] && next[i] == segments[i];
    var a, b, c, d := UserPrompt(segments[..i]), Itoa(i + 1), ". ", Labelled(segments[i].speaker, segments[i].text);
    assert a + (b + c + d) + "\n" == a + b + c + d + "\n";
  }

  method TranscriptUser(segments: seq<Segment>) returns (b: string)
    ensures b == UserPrompt(segments)
  {
    hide Labelled, Itoa;
    b := HEADING + "\n";
    for i := 0 to |segments|
      invariant b == UserPrompt(segments[..i])
    {
      UserPromptNext(segments, i);
      hide UserPrompt;
      b := b + Itoa(i + 1) + ". " + Labelled(segments[i].speaker, segments[i].text) + "\n";
    }
    assert segments[..|segments|] == segments;
  }

  // ---- Budgets and estimates ----

  function Characters(segments: seq<Segment>): nat {
    if segments == [] then 0
    else Characters(segments[..|segments| - 1])
         + |segments[|segments| - 1].text| + |segments[|segments| - 1].speaker|
  }

  /** The reply budget a group of turns is given to start with. */
  function MaxTokens(segments: seq<Segment>): nat {
    2000 + 2 * Characters(segments)
  }

  method TranscriptMaxTokens(segments: seq<Segment>) returns (budget: nat)
    ensures budget == MaxTokens(segments)
  {
    var chars := 0;
    for i := 0 to |segments|
      invariant chars == Characters(segments[..i])
    {
      assert segments[..i + 1][..i] == segments[..i];
      chars := chars + |segments[i].text|;
      chars := chars + |segments[i].speaker|;
    }
    assert segments[..|segments|] == segments;
    return 2000 + 2 * chars;
  }

  /** Two parts of a group are given together what the group is, and the headroom once more; so each part is
      given no more than the whole. */
  lemma {:induction false} BudgetOfParts(a: seq<Segment>, b: seq<Segment>)
    ensures MaxTokens(a) + MaxTokens(b) == MaxTokens(a + b) + MaxTokens([])
    ensures MaxTokens(a) <= MaxTokens(a + b) && MaxTokens(b) <= MaxTokens(a + b)
    decreases |b|
  {
    if b == [] {
      assert a + b == a;
    } else {
      assert (a + b)[..|a + b| - 1] == a + b[..|b| - 1];
      BudgetOfParts(a, b[..|b| - 1]);
    }
  }

  /** A turn by itself is given the headroom and twice its characters, the speaker's name included. */
  lemma BudgetOfOne(sg: Segment)
    ensures MaxTokens([]) == 2000 && MaxTokens([sg]) == 2000 + 2 * (|sg.text| + |sg.speaker|)
  {
    assert [sg][..0] == [];
  }

  function Ideographs(s: string, ideograph: char -> bool): (n: nat)
    ensures n <= |s|
  {
    if s == "" then 0
    else Ideographs(s[..|s| - 1], ideograph) + if ideograph(s[|s| - 1]) then 1 else 0
  }

  /** One token an ideograph, and one for every three other characters, rounded up. */
  function Estimate(s: string, ideograph: char -> bool): nat {
    var cjk := Ideographs(s, ideograph);
    cjk + (|s| - cjk + 2) / 3
  }

  method EstimateTokens(s: string, ideograph: char -> bool) returns (tokens: nat)
    ensures tokens == Estimate(s, ideograph)
  {
    var cjk, other := 0, 0;
    for i := 0 to |s|
      invariant cjk == Ideographs(s[..i], ideograph) && other == i - cjk
    {
      assert s[..i + 1][..i] == s[..i];
      if ideograph(s[i]) {
        cjk := cjk + 1;
      } else {
        other := other + 1;
      }
    }
    assert s[..|s|] == s;
    return cjk + (other + 2) / 3;
  }

  lemma {:induction false} IdeographsOfConcat(a: string, b: string, ideograph: char -> bool)
    ensures Ideographs(a + b, ideograph) == Ideographs(a, ideograph) + Ideographs(b, ideograph)
  {
    if b == "" {
      assert a + b == a;
    } else {
      assert (a + b)[..|a + b| - 1] == a + b[..|b| - 1];
      IdeographsOfConcat(a, b[..|b| - 1], ideograph);
    }
  }

  /** An ideograph is a token, and of the other characters every three, begun or whole, are. */
  lemma EstimateIs(s: string, c: char, ideograph: char -> bool)
    ensures var k := Ideographs(s, ideograph);
            var others := |s| - k;
            others <= 3 * (Estimate(s, ideograph) - k) < others + 3
    ensures Ideographs([c], ideograph) == if ideograph(c) then 1 else 0
  {
    assert [c][..0] == "";
  }

  /** Estimating the parts of a prompt apart never comes out below estimating it whole. */
  lemma EstimateIsSubadditive(a: string, b: string, ideograph: char -> bool)
    ensures Estimate(a + b, ideograph) <= Estimate(a, ideograph) + Estimate(b, ideograph)
  {
    IdeographsOfConcat(a, b, ideograph);
  }

  // ---- Numbered lines ----

  /** What may stand between a number and the text it numbers. */
  const PUNCTUATION: set<char> :=
    {'.', '\U{3001}', '\U{FF0E}', ')', '\U{FF09}', ':', '\U{FF1A}', '-', ' '}

  /** A line with its leading number read off. */
  datatype Numbered = Numbered(number: int, text: string)

  function DigitsLength(line: string): (n: nat)
    ensures n <= |line| && AllDigits(line[..n]) && (n < |line| ==> !IsDigit(line[n]))
  {
    if line == "" || !IsDigit(line[0]) then 0 else 1 + DigitsLength(line[1..])
  }

  function NumberPrefix(line: string): Option<Numbered> {
    var digits := DigitsLength(line);
    if digits == 0 then None
    else
      match ParseInt(line[..digits])
      case None => None
      case Some(n) =>
        Some(Numbered(n, TrimSpace(TrimLeftSet(TrimSpace(line[digits..]), PUNCTUATION))))
  }

  lemma {:induction false} DigitsLengthIs(line: string, n: nat)
    requires n <= |line| && AllDigits(line[..n]) && (n < |line| ==> !IsDigit(line[n]))
    ensures DigitsLength(line) == n
  {
    if n > 0 {
      assert line[..n][0] == line[0];
      assert line[1..][..n - 1] == line[..n][1..];
      DigitsLengthIs(line[1..], n - 1);
    }
  }

  method SplitNumberPrefix(line: string) returns (r: Option<Numbered>)
    ensures r == NumberPrefix(line)
  {
    var digits := 0;
    while digits < |line| && '0' <= line[digits] && line[digits] <= '9'
      invariant digits <= |line| && AllDigits(line[..digits])
    {
      digits := digits + 1;
    }
    DigitsLengthIs(line, digits);
    if digits == 0 {
      return None;
    }
    var n := ParseInt(line[..digits]);
    if n.None? {
      return None;
    }
    var rest := TrimLeftSet(TrimSpace(line[digits..]), PUNCTUATION);
    return Some(Numbered(n.value, TrimSpace(rest)));
  }

  // ---- Reading a reply ----

  /** The lines of a reply. */
  function RawLines(answer: string): seq<string> {
    SplitOn(answer, '\n')
  }

  /** The text a raw line gives for turn i, which is numbered i + 1, or "" when it gives none. */
  function AnswerFor(raw: string, i: nat): string {
    match NumberPrefix(TrimSpace(raw))
    case None => ""
    case Some(l) => if l.number == i + 1 then l.text else ""
  }

  /** The text the first line to give one gives for turn i. */
  function FirstAnswer(lines: seq<string>, i: nat): string {
    if lines == [] then ""
    else
      var earlier := FirstAnswer(lines[..|lines| - 1], i);
      if earlier != "" then earlier else AnswerFor(lines[|lines| - 1], i)
  }

  predicate AllAnswered(lines: seq<string>, want: nat) {
    forall i: nat | i < want :: FirstAnswer(lines, i) != ""
  }

  function ParsedReply(answer: string, want: nat): (r: Option<seq<string>>)
    ensures r.Some? ==> |r.value| == want
  {
    var lines := RawLines(answer);
    if AllAnswered(lines, want) then Some(seq(want, i requires 0 <= i < want => FirstAnswer(lines, i)))
    else None
  }

  /** The first answer is a line's answer, and no line before that one had any;
      there is none exactly when no line answers. */
  lemma {:induction false} FirstAnswerIsFirst(lines: seq<string>, i: nat)
    ensures FirstAnswer(lines, i) == "" <==> forall at | 0 <= at < |lines| :: AnswerFor(lines[at], i) == ""
    ensures FirstAnswer(lines, i) != "" ==>
              exists at :: 0 <= at < |lines| && AnswerFor(lines[at], i) == FirstAnswer(lines, i)
                           && forall b | 0 <= b < at :: AnswerFor(lines[b], i) == ""
  {
    hide AnswerFor;
    if lines != [] {
      var front := lines[..|lines| - 1];
      FirstAnswerIsFirst(front, i);
      assert forall b | 0 <= b < |front| :: lines[b] == front[b];
      if FirstAnswer(front, i) != "" {
        var at :| 0 <= at < |front| && AnswerFor(front[at], i) == FirstAnswer(front, i)
                  && forall b | 0 <= b < at :: AnswerFor(front[b], i) == "";
        assert AnswerFor(lines[at], i) == FirstAnswer(lines, i);
      } else if FirstAnswer(lines, i) != "" {
        assert AnswerFor(lines[|lines| - 1], i) == FirstAnswer(lines, i);
      }
    }
  }

  /** Some line has text for turn i. */
  predicate Answered(lines: seq<string>, i: nat) {
    exists at :: 0 <= at < |lines| && AnswerFor(lines[at], i) != ""
  }

  lemma AnswerTrimmed(raw: string, i: nat)
    ensures Trimmed(AnswerFor(raw, i))
  {
    var line := TrimSpace(raw);
    TrimSpaceTrims(TrimLeftSet(TrimSpace(line[DigitsLength(line)..]), PUNCTUATION));
  }

  lemma AnsweredMeans(lines: seq<string>, i: nat)
    ensures FirstAnswer(lines, i) != "" <==> Answered(lines, i)
    ensures Trimmed(FirstAnswer(lines, i))
  {
    FirstAnswerIsFirst(lines, i);
    if FirstAnswer(lines, i) != "" {
      var at :| 0 <= at < |lines| && AnswerFor(lines[at], i) == FirstAnswer(lines, i);
      AnswerTrimmed(lines[at], i);
    }
  }

  /** A reply lines up exactly when each number has a line with text, and then each turn gets
      the first such line's text, trimmed and not empty. */
  lemma ReplyLinesUp(answer: string, want: nat)
    ensures ParsedReply(answer, want).Some? <==>
              forall i: nat | i < want :: Answered(RawLines(answer), i)
    ensures ParsedReply(answer, want).Some? ==>
              forall i: nat | i < want :: ParsedReply(answer, want).value[i] != ""
                                          && Trimmed(ParsedReply(answer, want).value[i])
  {
    var lines := RawLines(answer);
    if AllAnswered(lines, want) {
      forall i: nat | i < want
        ensures Answered(lines, i) && Trimmed(FirstAnswer(lines, i))
      {
        AnsweredMeans(lines, i);
      }
    } else {
      var i: nat :| i < want && FirstAnswer(lines, i) == "";
      AnsweredMeans(lines, i);
      assert !Answered(lines, i);
    }
  }

  /** What the reply is read as, given every turn's first answer. */
  lemma ReplyIs(answer: string, want: nat, out: seq<string>)
    requires |out| == want
    requires forall i: nat | i < want :: out[i] == FirstAnswer(RawLines(answer), i)
    ensures ParsedReply(answer, want) == if "" !in out then Some(out) else None
  {
    var lines := RawLines(answer);
    if "" in out {
      var i: nat :| i < want && out[i] == "";
      assert FirstAnswer(lines, i) == "";
    } else {
      forall i: nat | i < want
        ensures FirstAnswer(lines, i) != ""
      {
        assert out[i] in out;
      }
      assert AllAnswered(lines, want);
      assert ParsedReply(answer, want).value == out;
    }
  }

  /** A reply that lines up reads as what it gives for each turn. */
  lemma ReplyGives(answer: string, want: nat, i: nat)
    requires ParsedReply(answer, want).Some? && i < want
    ensures ParsedReply(answer, want).value[i] == FirstAnswer(RawLines(answer), i)
  {
  }

  function FilledCount(out: seq<string>): (n: nat)
    ensures n <= |out|
    ensures n == |out| <==> "" !in out
  {
    if out == [] then 0
    else
      assert out == out[..|out| - 1] + [out[|out| - 1]];
      FilledCount(out[..|out| - 1]) + if out[|out| - 1] != "" then 1 else 0
  }

  lemma {:induction false} FilledUpdate(out: seq<string>, i: nat, text: string)
    requires i < |out| && out[i] == "" && text != ""
    ensures FilledCount(out[i := text]) == FilledCount(out) + 1
  {
    var last := |out| - 1;
    if i < last {
      assert out[i := text][..last] == out[..last][i := text];
      FilledUpdate(out[..last], i, text);
    } else {
      assert out[i := text][..last] == out[..last];
    }
  }

  lemma {:induction false} FilledNone(out: seq<string>)
    requires forall i | 0 <= i < |out| :: out[i] == ""
    ensures FilledCount(out) == 0
  {
    if out != [] {
      FilledNone(out[..|out| - 1]);
    }
  }

  lemma FirstAnswerNext(lines: seq<string>, at: nat, i: nat)
    requires at < |lines|
    ensures FirstAnswer(lines[..at + 1], i) ==
              var earlier := FirstAnswer(lines[..at], i);
              if earlier != "" then earlier else AnswerFor(lines[at], i)
  {
    assert lines[..at + 1][..at] == lines[..at];
  }

  /** out holds each turn's first answer among the first at lines. */
  ghost predicate HoldsFirst(out: seq<string>, lines: seq<string>, at: nat)
    requires at <= |lines|
  {
    forall i: nat | i < |out| :: out[i] == FirstAnswer(lines[..at], i)
  }

  lemma HoldsAtStart(out: seq<string>, lines: seq<string>)
    requires forall i | 0 <= i < |out| :: out[i] == ""
    ensures HoldsFirst(out, lines, 0)
  {
  }

  lemma HoldsAtEnd(answer: string, out: seq<string>)
    requires HoldsFirst(out, RawLines(answer), |RawLines(answer)|)
    ensures ParsedReply(answer, |out|) == if FilledCount(out) == |out| then Some(out) else None
  {
    hide FirstAnswer, ParsedReply;
    assert RawLines(answer)[..|RawLines(answer)|] == RawLines(answer);
    ReplyIs(answer, |out|, out);
  }

  /** What one more line changes: at most the answer of the turn it is numbered for. */
  lemma HoldsNext(out: seq<string>, lines: seq<string>, at: nat, l: Option<Numbered>)
    requires at < |lines| && HoldsFirst(out, lines, at) && l == NumberPrefix(TrimSpace(lines[at]))
    ensures var dropped := l.None? || l.value.number < 1 || l.value.number > |out|
                           || out[l.value.number - 1] != "" || l.value.text == "";
            HoldsFirst(if dropped then out else out[l.value.number - 1 := l.value.text], lines, at + 1)
  {
    hide NumberPrefix, TrimSpace, FirstAnswer;
    forall i: nat | i < |out|
      ensures FirstAnswer(lines[..at + 1], i) == if out[i] != "" then out[i] else AnswerFor(lines[at], i)
    {
      FirstAnswerNext(lines, at, i);
    }
  }

  method ParseNumbered(answer: string, want: nat) returns (r: Option<seq<string>>)
    ensures r == ParsedReply(answer, want)
  {
    hide AnswerFor, NumberPrefix, TrimSpace, FirstAnswer, FilledCount, HoldsFirst, ParsedReply, RawLines;
    var out := seq(want, i => "");
    var filled := 0;
    FilledNone(out);
    HoldsAtStart(out, RawLines(answer));
    var lines := RawLines(answer);
    for at := 0 to |lines|
      invariant |out| == want && filled == FilledCount(out)
      invariant HoldsFirst(out, lines, at)
    {
      var l := SplitNumberPrefix(TrimSpace(lines[at]));
      HoldsNext(out, lines, at, l);
      if l.None? || l.value.number < 1 || l.value.number > want
         || out[l.value.number - 1] != "" || l.value.text == "" {
        continue;
      }
      FilledUpdate(out, l.value.number - 1, l.value.text);
      out := out[l.value.number - 1 := l.value.text];
      filled := filled + 1;
    }
    HoldsAtEnd(answer, out);
    if filled != want {
      return None;
    }
    return Some(out);
  }

  // ---- A lone turn, not numbered ----

  /** A line without whatever number it opens with. */
  function Unnumbered(raw: string): string {
    var line := TrimSpace(raw);
    match NumberPrefix(line)
    case None => line
    case Some(l) => l.text
  }

  /** The lines that say something. */
  function Said(lines: seq<string>): seq<string> {
    if lines == [] then []
    else
      var last := Unnumbered(lines[|lines| - 1]);
      Said(lines[..|lines| - 1]) + if last == "" then [] else [last]
  }

  /** The reply's one line of text, or "" when it has none or several. */
  function LoneLine(answer: string): string {
    var said := Said(RawLines(answer));
    if |said| == 1 then said[0] else ""
  }

  lemma {:induction false} SaidGrows(lines: seq<string>, n: nat)
    requires n <= |lines|
    ensures |Said(lines[..n])| <= |Said(lines)|
  {
    if n < |lines| {
      assert lines[..|lines| - 1][..n] == lines[..n];
      SaidGrows(lines[..|lines| - 1], n);
    } else {
      assert lines[..n] == lines;
    }
  }

  lemma UnnumberedIsTrimmed(raw: string)
    ensures Trimmed(Unnumbered(raw))
  {
    hide TrimSpace, TrimLeftSet, Trimmed, DigitsLength, ParseInt;
    var line := TrimSpace(raw);
    TrimSpaceTrims(raw);
    TrimSpaceTrims(TrimLeftSet(TrimSpace(line[DigitsLength(line)..]), PUNCTUATION));
  }

  lemma {:induction false} SaidIsSomething(lines: seq<string>)
    ensures forall i | 0 <= i < |Said(lines)| :: Said(lines)[i] != "" && Trimmed(Said(lines)[i])
  {
    hide Unnumbered, Trimmed;
    if lines != [] {
      SaidIsSomething(lines[..|lines| - 1]);
      UnnumberedIsTrimmed(lines[|lines| - 1]);
    }
  }

  /** found is what the first at lines say, or "" when they say nothing. */
  ghost predicate HoldsSaid(found: string, lines: seq<string>, at: nat)
    requires at <= |lines|
  {
    Said(lines[..at]) == if found == "" then [] else [found]
  }

  lemma SaidAtEnd(answer: string, found: string)
    requires HoldsSaid(found, RawLines(answer), |RawLines(answer)|)
    ensures found == LoneLine(answer)
  {
    hide Said;
    assert RawLines(answer)[..|RawLines(answer)|] == RawLines(answer);
  }

  /** What one more line changes: nothing, or it is the first to say something, or there are several. */
  lemma SaidNext(answer: string, at: nat, found: string)
    requires at < |RawLines(answer)| && HoldsSaid(found, RawLines(answer), at)
    ensures var line := Unnumbered(RawLines(answer)[at]);
            if line == "" then HoldsSaid(found, RawLines(answer), at + 1)
            else if found == "" then HoldsSaid(line, RawLines(answer), at + 1)
            else LoneLine(answer) == ""
  {
    var lines := RawLines(answer);
    assert lines[..at + 1][..at] == lines[..at];
    SaidGrows(lines, at + 1);
    hide RawLines, Unnumbered;
  }

  method UnnumberedSingle(answer: string) returns (found: string)
    ensures found == LoneLine(answer)
  {
    hide NumberPrefix, TrimSpace, RawLines, LoneLine, HoldsSaid;
    found := "";
    var lines := RawLines(answer);
    assert HoldsSaid("", lines, 0) by { NothingSaid(lines); }
    for at := 0 to |lines|
      invariant HoldsSaid(found, lines, at)
    {
      SaidNext(answer, at, found);
      var line := TrimSpace(lines[at]);
      var l := SplitNumberPrefix(line);
      if l.Some? {
        line := l.value.text;
      }
      if line == "" {
        continue;
      }
      if found != "" {
        return "";
      }
      found := line;
    }
    SaidAtEnd(answer, found);
  }

  /** One line of the reply says something. */
  predicate SaysAlone(lines: seq<string>, i: nat) {
    i < |lines| && Unnumbered(lines[i]) != "" && forall j | 0 <= j < |lines| && j != i :: Unnumbered(lines[j]) == ""
  }

  /** A reply to one turn that is not numbered is read as the one line that says something, less its number; and as
      nothing when none does, or several do. */
  lemma LoneLineExactly(answer: string)
    ensures forall i: nat :: SaysAlone(RawLines(answer), i) ==> LoneLine(answer) == Unnumbered(RawLines(answer)[i])
    ensures LoneLine(answer) != "" ==> exists i: nat :: SaysAlone(RawLines(answer), i)
  {
    hide Unnumbered, RawLines;
    var lines := RawLines(answer);
    SaidIs(lines);
    SaidIsSomething(lines);
  }

  lemma {:induction false} SaidIs(lines: seq<string>)
    ensures Said(lines) == [] <==> forall j | 0 <= j < |lines| :: Unnumbered(lines[j]) == ""
    ensures |Said(lines)| == 1 <==> exists i: nat :: SaysAlone(lines, i)
    ensures forall i: nat :: SaysAlone(lines, i) ==> Said(lines) == [Unnumbered(lines[i])]
  {
    hide Unnumbered;
    if lines != [] {
      var front, last := lines[..|lines| - 1], |lines| - 1;
      SaidIs(front);
      assert forall j | 0 <= j < last :: front[j] == lines[j];
      if Unnumbered(lines[last]) == "" {
        assert forall i: nat :: SaysAlone(lines, i) <==> SaysAlone(front, i);
      } else {
        assert Said(front) == [] <==> SaysAlone(lines, last);
        assert forall i: nat | i != last :: !SaysAlone(lines, i);
      }
    }
  }

  lemma NothingSaid(lines: seq<string>)
    ensures HoldsSaid("", lines, 0)
  {
  }

  // ---- Echoed labels ----

  predicate HasLabel(line: string) {
    line != "" && line[0] == '[' && ']' in line
  }

  /** What follows the first ']', trimmed. */
  function AfterLabel(line: string): string
    requires ']' in line
  {
    TrimSpace(line[IndexOf(line, ']') + 1..])
  }

  predicate EveryLineLabelled(lines: seq<string>) {
    forall i | 0 <= i < |lines| :: HasLabel(lines[i]) && AfterLabel(lines[i]) != ""
  }

  /** Labels come off only when every line has one with text behind it. */
  function WithoutLabels(lines: seq<string>): (out: seq<string>)
    ensures |out| == |lines|
  {
    if EveryLineLabelled(lines) then seq(|lines|, i requires 0 <= i < |lines| => AfterLabel(lines[i]))
    else lines
  }

  method StripEchoedLabels(lines: seq<string>) returns (out: seq<string>)
    ensures out == WithoutLabels(lines)
  {
    hide TrimSpace, IndexOf;
    for i := 0 to |lines|
      invariant forall j | 0 <= j < i :: HasLabel(lines[j])
    {
      if lines[i] == "" || lines[i][0] != '[' || ']' !in lines[i] {
        return lines;
      }
    }
    out := seq(|lines|, i => "");
    for i := 0 to |lines|
      invariant |out| == |lines|
      invariant forall j | 0 <= j < i :: out[j] == AfterLabel(lines[j]) && out[j] != ""
    {
      out := out[i := TrimSpace(lines[i][IndexOf(lines[i], ']') + 1..])];
      if out[i] == "" {
        return lines;
      }
    }
  }

  /** Whatever comes off, every line still says something. */
  lemma WithoutLabelsKeeps(lines: seq<string>)
    requires forall i | 0 <= i < |lines| :: lines[i] != ""
    ensures forall i | 0 <= i < |lines| :: WithoutLabels(lines)[i] != ""
  {
    if EveryLineLabelled(lines) {
      assert forall i | 0 <= i < |lines| :: WithoutLabels(lines)[i] == AfterLabel(lines[i]);
    }
  }

  /** One line without a label, or with nothing after it, keeps all labels on. */
  lemma LabelsStayOn(lines: seq<string>, i: nat)
    requires i < |lines|
    requires lines[i] == "" || lines[i][0] != '[' || ']' !in lines[i]
             || exists name, rest :: lines[i] == "[" + name + "]" + rest && ']' !in name && TrimSpace(rest) == ""
    ensures WithoutLabels(lines) == lines
  {
    hide TrimSpace;
    if lines[i] != "" && lines[i][0] == '[' && ']' in lines[i] {
      var name, rest :| lines[i] == "[" + name + "]" + rest && ']' !in name && TrimSpace(rest) == "";
      AfterLabelIs(lines[i], name, rest);
    }
  }

  lemma AfterLabelIs(line: string, name: string, rest: string)
    requires line == "[" + name + "]" + rest && ']' !in name
    ensures HasLabel(line) && AfterLabel(line) == TrimSpace(rest)
  {
    var open := "[" + name;
    assert line == open + [']'] + rest;
    IndexOfPrefix(open, rest, ']');
    assert line[|open|] == ']' && line[|open| + 1..] == rest;
  }

  /** When every line has one, and says something after it, all come off. */
  lemma LabelsAllComeOff(lines: seq<string>, names: seq<string>, rests: seq<string>)
    requires |names| == |rests| == |lines|
    requires forall i | 0 <= i < |lines| ::
               lines[i] == "[" + names[i] + "]" + rests[i] && ']' !in names[i] && TrimSpace(rests[i]) != ""
    ensures |WithoutLabels(lines)| == |lines|
    ensures forall i | 0 <= i < |lines| :: WithoutLabels(lines)[i] == TrimSpace(rests[i])
  {
    hide TrimSpace, HasLabel, AfterLabel;
    forall i | 0 <= i < |lines|
      ensures HasLabel(lines[i]) && AfterLabel(lines[i]) == TrimSpace(rests[i])
    {
      AfterLabelIs(lines[i], names[i], rests[i]);
    }
    assert EveryLineLabelled(lines);
  }

  // ---- An echoed prompt ----

  /** The label and text a turn is shown with. */
  function Shown(sg: Segment): string {
    Labelled(sg.speaker, sg.text)
  }

  /** A turn as validation leaves it: trimmed text on one line, not empty, and a trimmed name. */
  predicate ValidTurn(sg: Segment) {
    sg.text != "" && Trimmed(sg.text) && '\n' !in sg.text && Trimmed(sg.speaker)
  }

  predicate ValidTurns(segments: seq<Segment>) {
    |segments| <= MAX_INT64 && forall i | 0 <= i < |segments| :: ValidTurn(segments[i])
  }

  /** Every turn is shown on one line. */
  predicate OneLine(segments: seq<Segment>) {
    forall i | 0 <= i < |segments| :: '\n' !in Shown(segments[i])
  }

  lemma ShownTrimmed(sg: Segment)
    requires ValidTurn(sg)
    ensures Shown(sg) != "" && Trimmed(Shown(sg))
    ensures Shown(sg)[0] == if sg.speaker == "" then sg.text[0] else '['
  {
    assert Shown(sg)[|Shown(sg)| - 1] == sg.text[|sg.text| - 1];
  }

  function Lines(lines: seq<string>): string {
    if lines == [] then "" else Lines(lines[..|lines| - 1]) + lines[|lines| - 1] + "\n"
  }

  lemma {:induction false} SplitLines(lines: seq<string>, rest: string)
    requires forall i | 0 <= i < |lines| :: '\n' !in lines[i]
    ensures SplitOn(Lines(lines) + rest, '\n') == lines + SplitOn(rest, '\n')
  {
    hide IndexOf, SplitOn;
    if lines == [] {
      assert Lines(lines) + rest == rest;
    } else {
      var front, last := lines[..|lines| - 1], lines[|lines| - 1];
      var more := last + ['\n'] + rest;
      assert Lines(lines) + rest == Lines(front) + more;
      SplitLine(last, rest, '\n');
      SplitLines(front, more);
      assert front + ([last] + SplitOn(rest, '\n')) == lines + SplitOn(rest, '\n');
    }
  }

  /** The lines of a prompt, as an engine that repeats it verbatim sends them. */
  function EchoedLines(segments: seq<Segment>): seq<string> {
    if segments == [] then [HEADING]
    else EchoedLines(segments[..|segments| - 1]) + [NumberedLine(segments, |segments| - 1)]
  }

  lemma {:induction false} PromptLines(segments: seq<Segment>)
    ensures |EchoedLines(segments)| == |segments| + 1
    ensures EchoedLines(segments)[0] == HEADING
    ensures forall i | 0 <= i < |segments| :: EchoedLines(segments)[i + 1] == NumberedLine(segments, i)
    ensures UserPrompt(segments) == Lines(EchoedLines(segments))
  {
    hide Labelled, Itoa;
    var lines := EchoedLines(segments);
    if segments == [] {
      assert lines[..0] == [];
    } else {
      var front := segments[..|segments| - 1];
      PromptLines(front);
      assert lines[..|lines| - 1] == EchoedLines(front);
      forall i | 0 <= i < |segments|
        ensures lines[i + 1] == NumberedLine(segments, i)
      {
        if i < |front| {
          assert NumberedLine(segments, i) == NumberedLine(front, i);
        }
      }
    }
  }

  /** The lines of a lead-in. */
  function LeadInLines(before: seq<Line>): (r: seq<string>)
    ensures |r| == |before| + 2
  {
    if before == [] then ["", SAID_BEFORE]
    else LeadInLines(before[..|before| - 1]) + [Labelled(before[|before| - 1].speaker, before[|before| - 1].text)]
  }

  lemma {:induction false} LeadInIsLines(before: seq<Line>)
    ensures Lines(LeadInLines(before)) == if before == [] then LEAD_IN_HEADING else LeadIn(before)
  {
    var lines := LeadInLines(before);
    if before == [] {
      assert lines[..1] == [""] && [""][..0] == [];
      assert Lines([""]) == "" + "" + "\n";
    } else {
      var front, last := before[..|before| - 1], before[|before| - 1];
      LeadInIsLines(front);
      assert lines[..|lines| - 1] == LeadInLines(front) && lines[|lines| - 1] == Labelled(last.speaker, last.text);
      LeadInNext(before, |before| - 1);
      assert before[..|before|] == before;
      hide Labelled, LeadIn, LeadInLines;
    }
  }

  lemma {:induction false} LeadInLinesAre(before: seq<Line>)
    ensures var lines := LeadInLines(before);
            lines[0] == "" && lines[1] == SAID_BEFORE
            && forall i | 0 <= i < |before| :: lines[i + 2] == Labelled(before[i].speaker, before[i].text)
  {
    hide Labelled;
    if before != [] {
      LeadInLinesAre(before[..|before| - 1]);
    }
  }

  lemma SaidBeforeOneLine()
    ensures '\n' !in SAID_BEFORE
  {
    var a, b, c := "What was said just before", " (reference only; do not", " translate or output this):";
    forall i | 0 <= i < |a|
      ensures a[i] != '\n'
    {
    }
    forall i | 0 <= i < |b|
      ensures b[i] != '\n'
    {
    }
    forall i | 0 <= i < |c|
      ensures c[i] != '\n'
    {
    }
  }

  /** The lead-in's lines: an empty one, the heading, and each turn's label and text, in order. */
  lemma LeadInReads(before: seq<Line>)
    requires before != []
    requires forall i | 0 <= i < |before| :: '\n' !in before[i].speaker && '\n' !in before[i].text
    ensures var lines := RawLines(LeadIn(before));
            && |lines| == |before| + 3 && lines[0] == "" && lines[1] == SAID_BEFORE && lines[|before| + 2] == ""
            && forall i | 0 <= i < |before| ::
                 lines[i + 2] == if before[i].speaker == "" then before[i].text
                                 else "[" + before[i].speaker + "] " + before[i].text
  {
    var lines := LeadInLines(before);
    LeadInIsLines(before);
    LeadInLinesAre(before);
    SaidBeforeOneLine();
    hide LeadInLines, LeadIn, Lines;
    forall i | 0 <= i < |lines|
      ensures '\n' !in lines[i]
    {
      if i >= 2 {
        var j := i - 2;
        assert lines[j + 2] == Labelled(before[j].speaker, before[j].text);
        LabelledOneLine(before[j].speaker, before[j].text);
        assert lines[i] == Labelled(before[j].speaker, before[j].text);
      } else if i == 1 {
        assert lines[i] == SAID_BEFORE;
      }
    }
    SplitLines(lines, "");
    assert Lines(lines) + "" == Lines(lines);
    assert RawLines(LeadIn(before)) == lines + [""] by {
      NoSeparatorSplits("");
    }
    hide RawLines;
  }

  lemma LabelledOneLine(speaker: string, text: string)
    requires '\n' !in speaker && '\n' !in text
    ensures '\n' !in Labelled(speaker, text)
  {
  }

  lemma NoSeparatorSplits(s: string)
    ensures s == "" ==> SplitOn(s, '\n') == [""]
  {
  }

  lemma ItoaOneLine(n: nat)
    ensures '\n' !in Itoa(n) && SpaceFree(Itoa(n)) && Itoa(n) != ""
  {
    ItoaSpells(n);
    forall i | 0 <= i < |Itoa(n)|
      ensures Itoa(n)[i] != '\n' && !IsSpace(Itoa(n)[i])
    {
      assert IsDigit(Itoa(n)[i]);
    }
  }

  lemma EchoedOneLine(segments: seq<Segment>, i: nat)
    requires OneLine(segments) && i <= |segments| && |EchoedLines(segments)| == |segments| + 1
    ensures '\n' !in EchoedLines(segments)[i]
  {
    PromptLines(segments);
    if i == 0 {
      HeadingOneLine();
    } else {
      NumberedOneLine(i, Shown(segments[i - 1]));
      assert EchoedLines(segments)[i - 1 + 1] == NumberedLine(segments, i - 1);
    }
  }

  lemma EchoSplits(segments: seq<Segment>)
    requires OneLine(segments)
    ensures RawLines(UserPrompt(segments)) == EchoedLines(segments) + [""]
  {
    PromptLines(segments);
    forall i | 0 <= i < |EchoedLines(segments)|
      ensures '\n' !in EchoedLines(segments)[i]
    {
      EchoedOneLine(segments, i);
    }
    SplitLines(EchoedLines(segments), "");
    assert UserPrompt(segments) + "" == UserPrompt(segments);
  }

  lemma HeadingOneLine()
    ensures '\n' !in HEADING
  {
    forall i | 0 <= i < |HEADING|
      ensures HEADING[i] != '\n'
    {
    }
  }

  lemma NumberedOneLine(n: nat, shown: string)
    requires '\n' !in shown
    ensures '\n' !in Itoa(n) + ". " + shown
  {
    ItoaOneLine(n);
  }

  /** What is read off "n. shown": the number, and what is shown less any punctuation it opens with. */
  lemma NumberedReadsBack(n: nat, shown: string)
    requires n <= MAX_INT64 && shown != "" && Trimmed(shown)
    ensures var line := Itoa(n) + ". " + shown;
            TrimSpace(line) == line
            && NumberPrefix(line) == Some(Numbered(n, TrimSpace(TrimLeftSet(shown, PUNCTUATION))))
  {
    var number, tail := Itoa(n), ". " + shown;
    var line := number + tail;
    assert Itoa(n) + ". " + shown == line;
    ItoaOneLine(n);
    ItoaSpells(n);
    ParsePrinted(n);
    assert line[..|number|] == number && line[|number|..] == tail;
    assert line[|number|] == '.' && !IsDigit('.');
    hide *;
    NumberedTrims(number, shown);
    DigitsLengthIs(line, |number|);
    PrefixIs(line, n);
    TailPunctuation(shown);
  }

  lemma PrefixIs(line: string, n: int)
    requires DigitsLength(line) > 0 && ParseInt(line[..DigitsLength(line)]) == Some(n)
    ensures NumberPrefix(line)
            == Some(Numbered(n, TrimSpace(TrimLeftSet(TrimSpace(line[DigitsLength(line)..]), PUNCTUATION))))
  {
    hide ParseInt, TrimSpace, TrimLeftSet, DigitsLength;
  }

  lemma NumberedTrims(number: string, shown: string)
    requires number != "" && SpaceFree(number) && shown != "" && Trimmed(shown)
    ensures TrimSpace(number + (". " + shown)) == number + (". " + shown) && TrimSpace(". " + shown) == ". " + shown
  {
    var tail := ". " + shown;
    var line := number + tail;
    assert tail[0] == '.' && tail[|tail| - 1] == shown[|shown| - 1];
    assert line[0] == number[0] && line[|line| - 1] == shown[|shown| - 1];
    TrimmedStays(line);
    TrimmedStays(tail);
  }

  /** Any one of the marks a list's numbers are followed by comes off, whichever it is. */
  lemma MarkComesOff(n: nat, mark: char, text: string)
    requires n <= MAX_INT64 && text != "" && Trimmed(text) && text[0] !in PUNCTUATION
    requires mark == '.' || mark == ')' || mark == ':' || mark == '-' || mark == '\U{3001}' || mark == '\U{FF0E}'
             || mark == '\U{FF09}' || mark == '\U{FF1A}'
    ensures NumberPrefix(Itoa(n) + ([mark] + text)) == Some(Numbered(n, text))
    ensures NumberPrefix(Itoa(n) + ([mark] + (" " + text))) == Some(Numbered(n, text))
  {
    MarkIsSolid(mark);
    NumberThen(n, mark, text, text);
    NumberThen(n, mark, " " + text, text);
  }

  lemma MarkIsSolid(mark: char)
    requires mark == '.' || mark == ')' || mark == ':' || mark == '-' || mark == '\U{3001}' || mark == '\U{FF0E}'
             || mark == '\U{FF09}' || mark == '\U{FF1A}'
    ensures mark in PUNCTUATION && !IsSpace(mark) && !IsDigit(mark)
  {
  }

  lemma NumberThen(n: nat, mark: char, rest: string, text: string)
    requires n <= MAX_INT64 && mark in PUNCTUATION && !IsSpace(mark) && !IsDigit(mark)
    requires text != "" && Trimmed(text) && text[0] !in PUNCTUATION && (rest == text || rest == " " + text)
    ensures NumberPrefix(Itoa(n) + ([mark] + rest)) == Some(Numbered(n, text))
  {
    var number, tail := Itoa(n), [mark] + rest;
    var line := number + tail;
    ItoaOneLine(n);
    ItoaSpells(n);
    ParsePrinted(n);
    assert line[..|number|] == number && line[|number|..] == tail;
    assert line[|number|] == mark;
    TailTrims(mark, rest, text);
    hide *;
    DigitsLengthIs(line, |number|);
    PrefixIs(line, n);
  }

  lemma TailTrims(mark: char, rest: string, text: string)
    requires mark in PUNCTUATION && !IsSpace(mark)
    requires text != "" && Trimmed(text) && text[0] !in PUNCTUATION && (rest == text || rest == " " + text)
    ensures TrimSpace(TrimLeftSet(TrimSpace([mark] + rest), PUNCTUATION)) == text
  {
    hide IsSpace;
    var tail := [mark] + rest;
    assert tail[|tail| - 1] == text[|text| - 1];
    TrimmedStays(tail);
    TrimmedStays(text);
    hide TrimSpace;
    assert tail[1..] == rest && (" " + text)[1..] == text && (" " + text)[0] == ' ';
    assert TrimLeftSet(text, PUNCTUATION) == text;
    assert TrimLeftSet(rest, PUNCTUATION) == text;
    assert TrimLeftSet(tail, PUNCTUATION) == TrimLeftSet(rest, PUNCTUATION);
  }

  lemma TailPunctuation(shown: string)
    ensures TrimLeftSet(". " + shown, PUNCTUATION) == TrimLeftSet(shown, PUNCTUATION)
  {
    var tail := ". " + shown;
    assert tail[1..] == " " + shown && (" " + shown)[1..] == shown;
    assert tail[0] in PUNCTUATION && (" " + shown)[0] in PUNCTUATION;
  }

  lemma HeadingAnswersNothing(i: nat)
    ensures AnswerFor(HEADING, i) == "" && AnswerFor("", i) == ""
  {
    assert !IsSpace(HEADING[0]) && HEADING[|HEADING| - 1] == ':';
    TrimmedStays(HEADING);
    assert DigitsLength(HEADING) == 0;
  }

  /** What the echoed line of turn j gives for turn i. */
  lemma EchoedLineAnswers(segments: seq<Segment>, j: nat, i: nat)
    requires ValidTurns(segments) && j < |segments|
    ensures AnswerFor(NumberedLine(segments, j), i)
            == if i == j then TrimSpace(TrimLeftSet(Shown(segments[j]), PUNCTUATION)) else ""
  {
    ShownTrimmed(segments[j]);
    NumberedReadsBack(j + 1, Shown(segments[j]));
  }

  /** When one line alone answers, that is the first answer. */
  lemma LoneAnswer(lines: seq<string>, at: nat, i: nat)
    requires at < |lines|
    requires forall b | 0 <= b < |lines| && b != at :: AnswerFor(lines[b], i) == ""
    ensures FirstAnswer(lines, i) == AnswerFor(lines[at], i)
  {
    FirstAnswerIsFirst(lines, i);
  }

  lemma EchoFirstAnswer(segments: seq<Segment>, i: nat)
    requires ValidTurns(segments) && OneLine(segments) && i < |segments|
    ensures FirstAnswer(RawLines(UserPrompt(segments)), i)
            == TrimSpace(TrimLeftSet(Shown(segments[i]), PUNCTUATION))
  {
    EchoSplits(segments);
    PromptLines(segments);
    var lines := EchoedLines(segments) + [""];
    forall at | 0 <= at < |lines| && at != i + 1
      ensures AnswerFor(lines[at], i) == ""
    {
      EchoOthers(segments, lines[at], at, i);
    }
    LoneAnswer(lines, i + 1, i);
    EchoedLineAnswers(segments, i, i);
  }

  lemma EchoOthers(segments: seq<Segment>, line: string, at: nat, i: nat)
    requires ValidTurns(segments) && at <= |segments| + 1 && at != i + 1
    requires line == if at == 0 then HEADING else if at <= |segments| then NumberedLine(segments, at - 1) else ""
    ensures AnswerFor(line, i) == ""
  {
    hide AnswerFor;
    if 0 < at <= |segments| {
      EchoedLineAnswers(segments, at - 1, i);
    } else {
      HeadingAnswersNothing(i);
    }
  }

  lemma {:induction false} TrimLeftSetShortens(s: string, cut: set<char>)
    ensures |TrimLeftSet(s, cut)| <= |s|
    ensures s != "" && s[0] in cut ==> |TrimLeftSet(s, cut)| < |s|
  {
    if s != "" && s[0] in cut {
      TrimLeftSetShortens(s[1..], cut);
    }
  }

  /** A trimmed text is left whole exactly when it opens with no list punctuation. */
  lemma PunctuationComesOff(shown: string)
    requires shown != "" && Trimmed(shown)
    ensures TrimSpace(TrimLeftSet(shown, PUNCTUATION)) == shown <==> shown[0] !in PUNCTUATION
  {
    if shown[0] in PUNCTUATION {
      var cut := TrimLeftSet(shown, PUNCTUATION);
      TrimLeftSetShortens(shown, PUNCTUATION);
      TrimLeftSuffix(cut);
      TrimRightPrefix(TrimLeft(cut));
    } else {
      TrimmedStays(shown);
    }
  }

  function ShownTurns(segments: seq<Segment>): (r: seq<string>)
    ensures |r| == |segments|
  {
    seq(|segments|, i requires 0 <= i < |segments| => Shown(segments[i]))
  }

  /** No turn is shown on a line opening with list punctuation. */
  predicate NoLeadingPunctuation(segments: seq<Segment>) {
    forall i | 0 <= i < |segments| :: Shown(segments[i]) != "" ==> Shown(segments[i])[0] !in PUNCTUATION
  }

  lemma {:induction false} TrimLeftSetAddsNothing(s: string, cut: set<char>, c: char)
    ensures c in TrimLeftSet(s, cut) ==> c in s
  {
    if s != "" && s[0] in cut {
      TrimLeftSetAddsNothing(s[1..], cut, c);
    }
  }

  lemma AnswerAddsNothing(raw: string, i: nat, c: char)
    ensures c in AnswerFor(raw, i) ==> c in raw
  {
    hide TrimSpace, TrimLeftSet;
    var line := TrimSpace(raw);
    var rest := TrimSpace(line[DigitsLength(line)..]);
    TrimSpaceAddsNothing(raw, c);
    TrimSpaceAddsNothing(line[DigitsLength(line)..], c);
    TrimLeftSetAddsNothing(rest, PUNCTUATION, c);
    TrimSpaceAddsNothing(TrimLeftSet(rest, PUNCTUATION), c);
  }

  /** Nothing read off a reply goes over a line break. */
  lemma AnswersAreOneLine(answer: string, i: nat)
    ensures '\n' !in FirstAnswer(RawLines(answer), i)
  {
    hide AnswerFor, FirstAnswer, SplitOn;
    var lines := RawLines(answer);
    SplitHasNoSeparator(answer, '\n');
    FirstAnswerIsFirst(lines, i);
    if FirstAnswer(lines, i) != "" {
      var at :| 0 <= at < |lines| && AnswerFor(lines[at], i) == FirstAnswer(lines, i);
      AnswerAddsNothing(lines[at], i, '\n');
    }
  }

  /** For any valid turns, reading back a verbatim echo of the prompt gives each turn as it was shown
      exactly when each is shown on one line, and none opens with list punctuation. */
  lemma EchoReadsBack(segments: seq<Segment>)
    requires ValidTurns(segments)
    ensures ParsedReply(UserPrompt(segments), |segments|) == Some(ShownTurns(segments))
            <==> OneLine(segments) && NoLeadingPunctuation(segments)
  {
    hide ValidTurns, OneLine, NoLeadingPunctuation, UserPrompt, ShownTurns, ParsedReply, FirstAnswer, RawLines, Shown;
    if OneLine(segments) {
      OneLineEchoReadsBack(segments);
    } else if ParsedReply(UserPrompt(segments), |segments|) == Some(ShownTurns(segments)) {
      EchoedOnOneLine(segments);
    }
  }

  lemma EchoedOnOneLine(segments: seq<Segment>)
    requires ParsedReply(UserPrompt(segments), |segments|) == Some(ShownTurns(segments))
    ensures OneLine(segments)
  {
    hide UserPrompt, ParsedReply, FirstAnswer, RawLines, Shown;
    forall i | 0 <= i < |segments|
      ensures '\n' !in Shown(segments[i])
    {
      ReplyGives(UserPrompt(segments), |segments|, i);
      AnswersAreOneLine(UserPrompt(segments), i);
    }
  }

  lemma OneLineEchoReadsBack(segments: seq<Segment>)
    requires ValidTurns(segments) && OneLine(segments)
    ensures ParsedReply(UserPrompt(segments), |segments|) == Some(ShownTurns(segments))
            <==> NoLeadingPunctuation(segments)
  {
    hide RawLines, TrimSpace, TrimLeftSet, UserPrompt, FirstAnswer;
    var shown := ShownTurns(segments);
    forall i: nat | i < |segments|
      ensures shown[i] != ""
      ensures FirstAnswer(RawLines(UserPrompt(segments)), i) == shown[i] <==> shown[i][0] !in PUNCTUATION
    {
      EchoFirstAnswer(segments, i);
      ShownTrimmed(segments[i]);
      PunctuationComesOff(shown[i]);
    }
    if NoLeadingPunctuation(segments) {
      ReplyIs(UserPrompt(segments), |segments|, shown);
    } else {
      var i: nat :| i < |segments| && Shown(segments[i]) != "" && Shown(segments[i])[0] in PUNCTUATION;
      if ParsedReply(UserPrompt(segments), |segments|) == Some(shown) {
        ReplyGives(UserPrompt(segments), |segments|, i);
      }
    }
  }

  /** Turns whose speakers are all named, without ']' or a line break in the name. */
  predicate Attributed(segments: seq<Segment>) {
    forall i | 0 <= i < |segments| ::
      segments[i].speaker != "" && ']' !in segments[i].speaker && '\n' !in segments[i].speaker
  }

  /** The number a lone line opens with comes off, and a line that opens with no digit is only trimmed. */
  lemma LoneNumberComesOff(n: nat, shown: string, raw: string)
    requires n <= MAX_INT64 && shown != "" && Trimmed(shown) && shown[0] !in PUNCTUATION
    requires TrimSpace(raw) == "" || !IsDigit(TrimSpace(raw)[0])
    ensures Unnumbered(Itoa(n) + ". " + shown) == shown && Unnumbered(raw) == TrimSpace(raw)
  {
    NumberedReadsBack(n, shown);
    TrimmedStays(shown);
    assert DigitsLength(TrimSpace(raw)) == 0;
    hide Itoa, TrimSpace, Trimmed, IsDigit, ParseInt;
    assert TrimLeftSet(shown, PUNCTUATION) == shown;
  }

  lemma LabelComesOff(sg: Segment)
    requires ValidTurn(sg) && sg.speaker != "" && ']' !in sg.speaker
    ensures HasLabel(Shown(sg)) && AfterLabel(Shown(sg)) == sg.text
  {
    var open, rest := "[" + sg.speaker, " " + sg.text;
    assert Shown(sg) == open + [']'] + rest;
    assert ']' !in open;
    IndexOfPrefix(open, rest, ']');
    assert Shown(sg)[|open|] == ']' && Shown(sg)[|open| + 1..] == rest;
    assert rest[1..] == sg.text;
    TrimmedStays(sg.text);
  }

  lemma LabelsComeOff(segments: seq<Segment>, i: nat)
    requires ValidTurns(segments) && Attributed(segments) && i < |segments|
    ensures WithoutLabels(ShownTurns(segments))[i] == segments[i].text
  {
    var shown := ShownTurns(segments);
    forall j | 0 <= j < |shown|
      ensures HasLabel(shown[j]) && AfterLabel(shown[j]) == segments[j].text
    {
      LabelComesOff(segments[j]);
    }
    assert EveryLineLabelled(shown);
  }

  lemma AttributedShape(segments: seq<Segment>)
    requires ValidTurns(segments) && Attributed(segments)
    ensures OneLine(segments) && NoLeadingPunctuation(segments)
  {
    forall i | 0 <= i < |segments|
      ensures Shown(segments[i])[0] == '[' && '\n' !in Shown(segments[i])
    {
      ShownTrimmed(segments[i]);
    }
  }

  /** When every turn is attributed, a verbatim echo with its labels stripped is the source text. */
  lemma EchoRoundTrip(segments: seq<Segment>)
    requires ValidTurns(segments) && Attributed(segments)
    ensures var parsed := ParsedReply(UserPrompt(segments), |segments|);
            parsed.Some? && forall i | 0 <= i < |segments| :: WithoutLabels(parsed.value)[i] == segments[i].text
  {
    hide *;
    AttributedShape(segments);
    EchoReadsBack(segments);
    forall i | 0 <= i < |segments|
      ensures WithoutLabels(ShownTurns(segments))[i] == segments[i].text
    {
      LabelsComeOff(segments, i);
    }
  }
}
