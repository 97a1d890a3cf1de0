/** What a transcript request must be before it is translated, and what is left of it
    (internal/translate/transcript.go). */
module Validate {
  import opened Numbers
  import opened Text
  import opened Prompt

  const MAX_SEGMENTS: nat := 64
  const MAX_CONTEXT_LINES: nat := 16

  datatype Error =
    | SegmentsRequired
    | TooManySegments
    | IdRequired(index: nat)
    | DuplicateId(id: string)
    | TextRequired(index: nat)

  datatype Checked = Accepted(segments: seq<Segment>) | Rejected(error: Error)

  /** Runs of space become one space, and the ends none. */
  function CollapseSpace(s: string): string {
    JoinWords(Fields(s))
  }

  /** A collapsed text is one trimmed line, keeps every word in order, and collapses no further;
      it is empty exactly when there were no words. */
  lemma CollapseSpaceIsLine(s: string)
    ensures Trimmed(CollapseSpace(s)) && '\n' !in CollapseSpace(s)
    ensures Fields(CollapseSpace(s)) == Fields(s)
    ensures CollapseSpace(CollapseSpace(s)) == CollapseSpace(s)
    ensures CollapseSpace(s) == "" <==> Fields(s) == []
  {
    FieldsAreWords(s);
    FieldsOfJoin(Fields(s));
    JoinHasNoLineBreak(Fields(s));
  }

  function Normalised(sg: Segment): Segment {
    Segment(TrimSpace(sg.id), TrimSpace(sg.speaker), CollapseSpace(sg.text))
  }

  lemma NormalisedIs(sg: Segment)
    ensures Normalised(sg) == Segment(TrimSpace(sg.id), TrimSpace(sg.speaker), CollapseSpace(sg.text))
  {
  }

  /** What is wrong with turn i, its predecessors being right. */
  function Fault(segments: seq<Segment>, i: nat): Option<Error>
    requires i < |segments|
  {
    var sg := Normalised(segments[i]);
    if sg.id == "" then Some(IdRequired(i))
    else if exists j :: 0 <= j < i && Normalised(segments[j]).id == sg.id then Some(DuplicateId(sg.id))
    else if sg.text == "" then Some(TextRequired(i))
    else None
  }

  /** Every turn has an id of its own and some text, and there are not too many. */
  predicate Acceptable(segments: seq<Segment>) {
    && 1 <= |segments| <= MAX_SEGMENTS
    && (forall i | 0 <= i < |segments| :: Normalised(segments[i]).id != "" && Normalised(segments[i]).text != "")
    && (forall j, i | 0 <= j < i < |segments| :: Normalised(segments[j]).id != Normalised(segments[i]).id)
  }

  /** A request is acceptable exactly when it has 1 to 64 turns, each with a word of text and an id that says something
      and, spaces around it apart, is no other turn's. */
  lemma AcceptableExactly(segments: seq<Segment>)
    ensures Acceptable(segments) <==>
            && 1 <= |segments| <= 64
            && (forall i | 0 <= i < |segments| :: TrimSpace(segments[i].id) != "" && Fields(segments[i].text) != [])
            && forall i, j | 0 <= i < j < |segments| :: TrimSpace(segments[i].id) != TrimSpace(segments[j].id)
  {
    forall i | 0 <= i < |segments|
      ensures Normalised(segments[i]).id == TrimSpace(segments[i].id)
      ensures Normalised(segments[i]).text == "" <==> Fields(segments[i].text) == []
    {
      NormalisedIs(segments[i]);
      CollapseSpaceIsLine(segments[i].text);
    }
    hide Normalised, TrimSpace, Fields, CollapseSpace;
  }

  /** What a turn is rejected for, in this order: no id, an id an earlier turn has, and no text. */
  lemma FaultExactly(segments: seq<Segment>, i: nat)
    requires i < |segments|
    ensures var id := TrimSpace(segments[i].id);
            var taken := exists j :: 0 <= j < i && TrimSpace(segments[j].id) == id;
            && (id == "" ==> Fault(segments, i) == Some(IdRequired(i)))
            && (id != "" && taken ==> Fault(segments, i) == Some(DuplicateId(id)))
            && (id != "" && !taken ==>
                  Fault(segments, i) == if Fields(segments[i].text) == [] then Some(TextRequired(i)) else None)
  {
    CollapseSpaceIsLine(segments[i].text);
    var id := TrimSpace(segments[i].id);
    if j :| 0 <= j < i && TrimSpace(segments[j].id) == id {
      assert Normalised(segments[j]).id == id;
    }
    hide TrimSpace, Fields, CollapseSpace;
  }

  /** Accepts exactly the acceptable requests, normalised turn by turn; a rejection names the first
      turn at fault. */
  method ValidateSegments(segments: seq<Segment>) returns (r: Checked)
    ensures r.Accepted? <==> Acceptable(segments)
    ensures r.Accepted? ==>
              |r.segments| == |segments| && forall i | 0 <= i < |segments| :: r.segments[i] == Normalised(segments[i])
    ensures r.Rejected? ==>
              if segments == [] then r.error == SegmentsRequired
              else if |segments| > MAX_SEGMENTS then r.error == TooManySegments
              else exists i :: 0 <= i < |segments| && Fault(segments, i) == Some(r.error)
                               && forall j | 0 <= j < i :: Fault(segments, j).None?
  {
    hide TrimSpace, CollapseSpace, Normalised;
    if |segments| == 0 {
      return Rejected(SegmentsRequired);
    }
    if |segments| > MAX_SEGMENTS {
      return Rejected(TooManySegments);
    }
    var seen: set<string> := {};
    var plan: seq<Segment> := [];
    for i := 0 to |segments|
      invariant |plan| == i && forall j | 0 <= j < i :: plan[j] == Normalised(segments[j])
      invariant forall j | 0 <= j < i :: Normalised(segments[j]).id != "" && Normalised(segments[j]).text != ""
      invariant forall j | 0 <= j < i :: Normalised(segments[j]).id in seen
      invariant forall id | id in seen :: exists j :: 0 <= j < i && Normalised(segments[j]).id == id
      invariant forall j, k | 0 <= j < k < i :: Normalised(segments[j]).id != Normalised(segments[k]).id
      invariant forall j | 0 <= j < i :: Fault(segments, j).None?
    {
      var sg := segments[i];
      var id := TrimSpace(sg.id);
      NormalisedIs(sg);
      if id == "" {
        assert Fault(segments, i) == Some(IdRequired(i));
        return Rejected(IdRequired(i));
      }
      if id in seen {
        assert Fault(segments, i) == Some(DuplicateId(id));
        return Rejected(DuplicateId(id));
      }
      seen := seen + {id};
      var text := CollapseSpace(sg.text);
      if text == "" {
        assert Fault(segments, i) == Some(TextRequired(i));
        return Rejected(TextRequired(i));
      }
      plan := plan + [Segment(id, TrimSpace(sg.speaker), text)];
    }
    return Accepted(plan);
  }

  /** The last lines of the context, those that say something. */
  function Remembered(lines: seq<Line>): seq<Line> {
    if lines == [] then []
    else
      var last := lines[|lines| - 1];
      var text := CollapseSpace(last.text);
      Remembered(lines[..|lines| - 1]) + if text == "" then [] else [Line(TrimSpace(last.speaker), text)]
  }

  /** Of the context every line with a word in it is kept, in order, with its name trimmed and its spaces collapsed. */
  lemma {:induction false} RememberedExactly(a: seq<Line>, l: Line, b: seq<Line>)
    ensures Remembered(a + b) == Remembered(a) + Remembered(b)
    ensures Remembered([l]) ==
              if Fields(l.text) == [] then [] else [Line(TrimSpace(l.speaker), JoinWords(Fields(l.text)))]
    decreases |b|
  {
    CollapseSpaceIsLine(l.text);
    assert [l][..0] == [];
    if b == [] {
      assert a + b == a;
    } else {
      assert (a + b)[..|a + b| - 1] == a + b[..|b| - 1];
      RememberedExactly(a, l, b[..|b| - 1]);
    }
    hide Fields, JoinWords, TrimSpace;
  }

  method ValidateContext(before: seq<Line>) returns (context: seq<Line>)
    ensures context == Remembered(before[if |before| > MAX_CONTEXT_LINES then |before| - MAX_CONTEXT_LINES else 0..])
    ensures |context| <= MAX_CONTEXT_LINES && forall i | 0 <= i < |context| :: context[i].text != ""
  {
    hide TrimSpace, CollapseSpace;
    var lines := before[if |before| > MAX_CONTEXT_LINES then |before| - MAX_CONTEXT_LINES else 0..];
    context := [];
    for i := 0 to |lines|
      invariant context == Remembered(lines[..i]) && |context| <= i
      invariant forall j | 0 <= j < |context| :: context[j].text != ""
    {
      assert lines[..i + 1][..i] == lines[..i];
      var text := CollapseSpace(lines[i].text);
      if text == "" {
        continue;
      }
      context := context + [Line(TrimSpace(lines[i].speaker), text)];
    }
    assert lines[..|lines|] == lines;
  }

  /** The turns of an accepted request are valid turns to put to an engine. */
  lemma AcceptedTurnsAreValid(segments: seq<Segment>, plan: seq<Segment>)
    requires Acceptable(segments) && |plan| == |segments|
    requires forall i | 0 <= i < |plan| :: plan[i] == Normalised(segments[i])
    ensures ValidTurns(plan)
  {
    forall i | 0 <= i < |plan|
      ensures ValidTurn(plan[i])
    {
      CollapseSpaceIsLine(segments[i].text);
      TrimSpaceTrims(segments[i].speaker);
    }
  }

  /** From request to echo: when an engine repeats the prompt of an accepted request verbatim, and
      every speaker is named without ']' or a line break, what is read back is each turn's text
      with its spaces collapsed. */
  lemma AcceptedEchoRoundTrip(segments: seq<Segment>, plan: seq<Segment>)
    requires Acceptable(segments) && |plan| == |segments| && Attributed(plan)
    requires forall i | 0 <= i < |plan| :: plan[i] == Normalised(segments[i])
    ensures var parsed := ParsedReply(UserPrompt(plan), |plan|);
            parsed.Some? && forall i | 0 <= i < |plan| ::
              WithoutLabels(parsed.value)[i] == CollapseSpace(segments[i].text)
  {
    hide ParsedReply, UserPrompt, WithoutLabels, Attributed;
    AcceptedTurnsAreValid(segments, plan);
    EchoRoundTrip(plan);
  }

  /** An accepted request whose echo is not read back as it was shown: the dash the turn opens with is
      taken for a list's. */
  lemma EchoLosesDash()
    ensures var segments := [Segment("1", "", "- hello")];
            Acceptable(segments) && ValidTurns(segments) && ShownTurns(segments) == ["- hello"] &&
            ParsedReply(UserPrompt(segments), 1) == Some(["hello"])
  {
    var segments := [Segment("1", "", "- hello")];
    DashedTurn();
    hide *;
    EchoFirstAnswer(segments, 0);
    DashComesOff();
    assert ["hello"][0] == FirstAnswer(RawLines(UserPrompt(segments)), 0);
    ReplyIs(UserPrompt(segments), 1, ["hello"]);
  }

  lemma DashedTurn()
    ensures var segments := [Segment("1", "", "- hello")];
            Acceptable(segments) && ValidTurns(segments) && OneLine(segments) && ShownTurns(segments) == ["- hello"]
            && Shown(segments[0]) == "- hello"
  {
    DashedWords();
    TrimmedStays("1");
    TrimmedStays("");
    hide *;
    UnnamedTurn("1", "- hello");
  }

  /** A turn of nobody in particular, as validation leaves it. */
  lemma UnnamedTurn(id: string, text: string)
    requires id != "" && text != "" && TrimSpace(id) == id && TrimSpace("") == "" && CollapseSpace(text) == text
    ensures var segments := [Segment(id, "", text)];
            Acceptable(segments) && ValidTurns(segments) && OneLine(segments) && ShownTurns(segments) == [text]
            && Shown(segments[0]) == text
  {
    hide CollapseSpace, TrimSpace;
    var sg := Segment(id, "", text);
    assert Normalised(sg) == sg;
    AcceptedTurnsAreValid([sg], [sg]);
    assert ValidTurn([sg][0]) && Shown([sg][0]) == text;
  }

  lemma DashedWords()
    ensures CollapseSpace("- hello") == "- hello"
  {
    var words := ["-", "hello"];
    assert words[0] == "-" && words[1..] == ["hello"];
    assert JoinWords(words) == "-" + " " + "hello" == "- hello";
    hide JoinWords;
    FieldsOfJoin(words);
  }

  lemma DashComesOff()
    ensures TrimSpace(TrimLeftSet("- hello", PUNCTUATION)) == "hello"
  {
    hide TrimSpace;
    assert "- hello"[1..] == " hello" && " hello"[1..] == "hello";
    TrimmedStays("hello");
  }
}
