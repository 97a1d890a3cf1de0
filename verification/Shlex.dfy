/** Splitting a command line into tokens, with quotes and backslashes (internal/config/shlex.go).
    Characters here are bytes. */
module Shlex {
  import opened Numbers
  import opened Text

  datatype Result = Tokens(tokens: seq<string>) | UnbalancedQuote(quote: char) | DanglingBackslash

  /** What the byte loop holds: tokens so far, the one it is in, the quote it is in, and whether the
      next byte is escaped. */
  datatype Lexer = Lexer(tokens: seq<string>, cur: string, inToken: bool, quote: Option<char>, escaped: bool)

  const START: Lexer := Lexer([], "", false, None, false)

  predicate IsBlank(c: char) {
    c == ' ' || c == '\t' || c == '\n' || c == '\r'
  }

  predicate IsQuote(c: char) {
    c == '"' || c == '\''
  }

  function Lexed(l: Lexer, c: char): Lexer {
    if l.escaped then l.(cur := l.cur + [c], escaped := false, inToken := true)
    else if l.quote == None && c == '\\' then l.(escaped := true, inToken := true)
    else if l.quote == None && IsBlank(c) then
      if l.inToken then l.(tokens := l.tokens + [l.cur], cur := "", inToken := false) else l
    else if l.quote == None && IsQuote(c) then l.(quote := Some(c), inToken := true)
    else if l.quote == Some(c) then l.(quote := None)
    else l.(cur := l.cur + [c], inToken := true)
  }

  function Scanned(l: Lexer, s: string): Lexer
    decreases |s|
  {
    if s == "" then l else Scanned(Lexed(l, s[0]), s[1..])
  }

  function Finished(l: Lexer): Result {
    if l.quote.Some? then UnbalancedQuote(l.quote.value)
    else if l.escaped then DanglingBackslash
    else Tokens(if l.inToken then l.tokens + [l.cur] else l.tokens)
  }

  function Split(s: string): Result {
    Finished(Scanned(START, s))
  }

  method Shlex(s: string) returns (r: Result)
    ensures r == Split(s)
  {
    var tokens: seq<string> := [];
    var cur, inToken, quote, escaped := "", false, None, false;
    for i := 0 to |s|
      invariant Scanned(START, s) == Scanned(Lexer(tokens, cur, inToken, quote, escaped), s[i..])
    {
      var c := s[i];
      assert s[i..][0] == c && s[i..][1..] == s[i + 1..];
      if escaped {
        cur := cur + [c];
        escaped := false;
        inToken := true;
        continue;
      }
      if quote == None && c == '\\' {
        escaped := true;
        inToken := true;
        continue;
      }
      if quote == None && (c == ' ' || c == '\t' || c == '\n' || c == '\r') {
        if inToken {
          tokens := tokens + [cur];
          cur := "";
          inToken := false;
        }
        continue;
      }
      if quote == None && (c == '"' || c == '\'') {
        quote := Some(c);
        inToken := true;
        continue;
      }
      if quote == Some(c) {
        quote := None;
        continue;
      }
      cur := cur + [c];
      inToken := true;
    }
    if quote.Some? {
      return UnbalancedQuote(quote.value);
    }
    if escaped {
      return DanglingBackslash;
    }
    if inToken {
      tokens := tokens + [cur];
    }
    return Tokens(tokens);
  }

  /** A line of one byte: nothing for a space, tab or line break, an open quote or a dangling backslash for those, and
      otherwise the byte itself. */
  lemma OneByte(c: char)
    ensures Split([c]) == if c == ' ' || c == '\t' || c == '\n' || c == '\r' then Tokens([])
                          else if c == '"' || c == '\'' then UnbalancedQuote(c)
                          else if c == '\\' then DanglingBackslash
                          else Tokens([[c]])
  {
    assert [c][1..] == "";
    assert Scanned(START, [c]) == Scanned(Lexed(START, c), "") == Lexed(START, c);
    assert "" + [c] == [c] && [] + [[c]] == [[c]];
    assert START.cur == "" && START.tokens == [];
  }

  // ---- What a well-formed command line is ----

  /** A command line, piece by piece: a separator, a byte standing for itself, a byte after a backslash,
      or a quoted run. */
  datatype Piece = Sep(c: char) | Plain(c: char) | Escape(c: char) | Quoted(quote: char, body: string) {
    predicate Ok() {
      match this
      case Sep(c) => IsBlank(c)
      case Plain(c) => !IsBlank(c) && !IsQuote(c) && c != '\\'
      case Escape(_) => true
      case Quoted(q, body) => IsQuote(q) && q !in body
    }

    function Text(): string {
      match this
      case Sep(c) => [c]
      case Plain(c) => [c]
      case Escape(c) => ['\\', c]
      case Quoted(q, body) => [q] + body + [q]
    }

    /** What the piece adds to its token. */
    function Content(): string
      requires !Sep?
    {
      match this
      case Plain(c) => [c]
      case Escape(c) => [c]
      case Quoted(_, body) => body
    }
  }

  predicate Pieces(ps: seq<Piece>) {
    forall i | 0 <= i < |ps| :: ps[i].Ok()
  }

  function Rendered(ps: seq<Piece>): string {
    if ps == [] then "" else ps[0].Text() + Rendered(ps[1..])
  }

  /** The words of a line: stretches of pieces between separators, word being the one begun. */
  function Words(ps: seq<Piece>, word: Option<string>): seq<string> {
    if ps == [] then (if word == None then [] else [word.value])
    else if ps[0].Sep? then (if word == None then [] else [word.value]) + Words(ps[1..], None)
    else Words(ps[1..], Some((if word == None then "" else word.value) + ps[0].Content()))
  }

  /** Not inside a quote, nor after a backslash. */
  predicate Neutral(l: Lexer) {
    l.quote == None && !l.escaped && (!l.inToken ==> l.cur == "")
  }

  function Word(l: Lexer): Option<string> {
    if l.inToken then Some(l.cur) else None
  }

  lemma {:induction false} ScannedConcat(l: Lexer, a: string, b: string)
    ensures Scanned(l, a + b) == Scanned(Scanned(l, a), b)
    decreases |a|
  {
    hide Lexed;
    if a == "" {
      assert a + b == b;
    } else {
      assert (a + b)[0] == a[0] && (a + b)[1..] == a[1..] + b;
      ScannedConcat(Lexed(l, a[0]), a[1..], b);
    }
  }

  /** Inside a quote, everything up to the closing one is taken as it is. */
  lemma {:induction false} ScannedQuoted(l: Lexer, q: char, body: string)
    requires l.quote == Some(q) && !l.escaped && q !in body
    ensures Scanned(l, body) == l.(cur := l.cur + body, inToken := l.inToken || body != "")
    decreases |body|
  {
    if body == "" {
      assert l.cur + body == l.cur;
    } else {
      assert body[0] in body;
      ScannedQuoted(Lexed(l, body[0]), q, body[1..]);
      assert l.cur + [body[0]] + body[1..] == l.cur + body;
    }
  }

  /** What one piece does to the loop's state: end the token, or add to it. */
  function AfterPiece(l: Lexer, p: Piece): Lexer {
    if p.Sep? then Lexer(Ended(l), "", false, None, false)
    else Lexer(l.tokens, l.cur + p.Content(), true, None, false)
  }

  /** The tokens when the line ends here. */
  function Ended(l: Lexer): seq<string> {
    if l.inToken then l.tokens + [l.cur] else l.tokens
  }

  lemma ScannedPiece(l: Lexer, p: Piece)
    requires Neutral(l) && p.Ok()
    ensures Scanned(l, p.Text()) == AfterPiece(l, p) && Neutral(AfterPiece(l, p))
  {
    var t := p.Text();
    match p
    case Sep(c) => assert t[1..] == "";
    case Plain(c) => assert t[1..] == "";
    case Escape(c) =>
      assert t[1..] == [c] && t[1..][1..] == "";
      assert Scanned(l, t) == Scanned(Lexed(l, '\\'), [c]) == Scanned(Lexed(Lexed(l, '\\'), c), "");
    case Quoted(q, body) =>
      var inside := Lexed(l, q);
      assert t[0] == q && t[1..] == body + [q];
      ScannedConcat(inside, body, [q]);
      ScannedQuoted(inside, q, body);
      assert [q][1..] == "";
  }

  /** The words of a line, by its first piece. */
  lemma WordsByFirst(ps: seq<Piece>, word: Option<string>)
    requires ps != []
    ensures Words(ps, word) ==
              if ps[0].Sep? then (if word == None then [] else [word.value]) + Words(ps[1..], None)
              else Words(ps[1..], Some((if word == None then "" else word.value) + ps[0].Content()))
  {
    hide Piece.Text, Piece.Ok, Piece.Content;
  }

  /** The words of a line are what its first piece leaves, and then the words of the rest. */
  lemma PieceKeepsWords(l: Lexer, ps: seq<Piece>)
    requires Neutral(l) && ps != []
    ensures var next := AfterPiece(l, ps[0]);
            next.tokens + Words(ps[1..], Word(next)) == l.tokens + Words(ps, Word(l))
  {
    hide Piece.Text, Piece.Ok, Piece.Content, Words;
    WordsByFirst(ps, Word(l));
    var rest := Words(ps[1..], None);
    if l.inToken {
      assert l.tokens + [l.cur] + rest == l.tokens + ([l.cur] + rest);
    } else {
      assert [] + rest == rest;
      assert ps[0].Sep? || l.cur + ps[0].Content() == "" + ps[0].Content();
    }
  }

  lemma {:induction false} ScannedPieces(l: Lexer, ps: seq<Piece>)
    requires Neutral(l) && Pieces(ps)
    ensures var after := Scanned(l, Rendered(ps));
            Neutral(after) && Ended(after) == l.tokens + Words(ps, Word(l))
    decreases |ps|
  {
    if ps == [] {
      assert Scanned(l, "") == l;
      assert l.tokens + [] == l.tokens;
    } else {
      hide Lexed, Scanned, Words, Word, Neutral, AfterPiece, Ended, Piece.Text, Piece.Ok, Piece.Content;
      ScannedConcat(l, ps[0].Text(), Rendered(ps[1..]));
      ScannedPiece(l, ps[0]);
      ScannedPieces(AfterPiece(l, ps[0]), ps[1..]);
      PieceKeepsWords(l, ps);
    }
  }

  /** A line made of pieces splits into its words; one that goes on with an open quote, or ends in a
      bare backslash, fails with that. */
  lemma SplitOfPieces(ps: seq<Piece>, quote: char, body: string)
    requires Pieces(ps) && IsQuote(quote) && quote !in body
    ensures Split(Rendered(ps)) == Tokens(Words(ps, None))
    ensures Split(Rendered(ps) + ([quote] + body)) == UnbalancedQuote(quote)
    ensures Split(Rendered(ps) + "\\") == DanglingBackslash
  {
    hide Rendered, Words;
    ScannedPieces(START, ps);
    var l := Scanned(START, Rendered(ps));
    assert [] + Words(ps, None) == Words(ps, None);
    ScannedConcat(START, Rendered(ps), [quote] + body);
    assert ([quote] + body)[1..] == body;
    ScannedQuoted(Lexed(l, quote), quote, body);
    ScannedConcat(START, Rendered(ps), "\\");
    assert "\\"[1..] == "";
    assert Scanned(l, "\\") == Scanned(Lexed(l, '\\'), "");
  }

  /** What a line can end in beyond its pieces. */
  predicate OpenEnd(tail: string) {
    tail == "\\" || (tail != "" && IsQuote(tail[0]) && tail[0] !in tail[1..])
  }

  /** Every line is a run of pieces, alone or followed by an open quote or a bare backslash. */
  lemma {:induction false} EveryLineIsPieces(s: string) returns (ps: seq<Piece>, tail: string)
    ensures Pieces(ps) && s == Rendered(ps) + tail && (tail == "" || OpenEnd(tail))
    decreases |s|
  {
    if s == "" {
      ps, tail := [], "";
    } else if s == "\\" {
      ps, tail := [], s;
    } else if IsQuote(s[0]) {
      var n := IndexOf(s[1..], s[0]);
      if n == |s| - 1 {
        ps, tail := [], s;
      } else {
        var p := Quoted(s[0], s[1..][..n]);
        var rest := s[n + 2..];
        assert s == p.Text() + rest;
        ps, tail := EveryLineIsPieces(rest);
        AddPiece(p, ps, tail, rest);
        ps := [p] + ps;
      }
    } else {
      var p := if s[0] == '\\' then Escape(s[1]) else if IsBlank(s[0]) then Sep(s[0]) else Plain(s[0]);
      var rest := s[|p.Text()|..];
      assert s == p.Text() + rest;
      ps, tail := EveryLineIsPieces(rest);
      AddPiece(p, ps, tail, rest);
      ps := [p] + ps;
    }
  }

  lemma AddPiece(p: Piece, ps: seq<Piece>, tail: string, rest: string)
    requires p.Ok() && Pieces(ps) && rest == Rendered(ps) + tail
    ensures Pieces([p] + ps) && Rendered([p] + ps) + tail == p.Text() + rest
  {
    assert ([p] + ps)[1..] == ps;
    assert p.Text() + Rendered(ps) + tail == p.Text() + (Rendered(ps) + tail);
  }

  /** So splitting succeeds on exactly the lines that are whole pieces, giving their words, and fails on
      exactly those that end inside a quote or after a bare backslash. */
  lemma SplitSucceedsOnPieces(s: string)
    ensures Split(s).Tokens? <==> exists ps :: Pieces(ps) && Rendered(ps) == s
    ensures Split(s) == DanglingBackslash <==> exists ps :: Pieces(ps) && Rendered(ps) + "\\" == s
    ensures forall q :: Split(s) == UnbalancedQuote(q) <==>
                        exists ps, body :: Pieces(ps) && IsQuote(q) && q !in body && Rendered(ps) + ([q] + body) == s
  {
    hide Rendered, Split, Pieces, Words;
    var ps, tail := EveryLineIsPieces(s);
    forall ps', q, body | Pieces(ps') && IsQuote(q) && q !in body
      ensures Split(Rendered(ps')).Tokens?
      ensures Split(Rendered(ps') + ([q] + body)) == UnbalancedQuote(q)
      ensures Split(Rendered(ps') + "\\") == DanglingBackslash
    {
      SplitOfPieces(ps', q, body);
    }
    forall ps' | Pieces(ps')
      ensures Split(Rendered(ps')).Tokens? && Split(Rendered(ps') + "\\") == DanglingBackslash
    {
      SplitOfPieces(ps', '"', "");
    }
    if tail == "" {
      assert Rendered(ps) + tail == Rendered(ps);
    } else if tail != "\\" {
      assert [tail[0]] + tail[1..] == tail;
    }
  }

  // ---- Putting lines together ----

  /** Tokens already split off stay in front. */
  lemma {:induction false} TokensStayInFront(l: Lexer, more: seq<string>, s: string)
    ensures Scanned(l.(tokens := more + l.tokens), s) ==
              var after := Scanned(l, s);
              after.(tokens := more + after.tokens)
    decreases |s|
  {
    if s != "" {
      var next := Lexed(l, s[0]);
      assert more + (l.tokens + [l.cur]) == more + l.tokens + [l.cur];
      assert Lexed(l.(tokens := more + l.tokens), s[0]) == next.(tokens := more + next.tokens);
      TokensStayInFront(next, more, s[1..]);
    }
  }

  /** A line that parses, a space, and another line: the tokens of the one and then of the other, or
      the failure of the other. */
  lemma SplitOfJoined(a: string, b: string)
    requires Split(a).Tokens?
    ensures Split(a + " " + b) ==
              match Split(b)
              case Tokens(more) => Tokens(Split(a).tokens + more)
              case failure => failure
  {
    var l := Scanned(START, a);
    assert a + " " + b == a + (" " + b);
    ScannedConcat(START, a, " " + b);
    assert (" " + b)[1..] == b;
    var spaced := Lexed(l, ' ');
    assert Scanned(l, " " + b) == Scanned(spaced, b);
    TokensKeepShape(START, a);
    assert spaced == START.(tokens := Split(a).tokens + START.tokens);
    TokensStayInFront(START, Split(a).tokens, b);
    var after := Scanned(START, b);
    assert Split(a).tokens + (after.tokens + [after.cur]) == Split(a).tokens + after.tokens + [after.cur];
  }

  /** Outside a token the current one is empty. */
  lemma {:induction false} TokensKeepShape(l: Lexer, s: string)
    requires (!l.inToken ==> l.cur == "" && l.quote == None && !l.escaped)
    ensures var after := Scanned(l, s);
            !after.inToken ==> after.cur == "" && after.quote == None && !after.escaped
    decreases |s|
  {
    if s != "" {
      TokensKeepShape(Lexed(l, s[0]), s[1..]);
    }
  }

  /** A token with every byte escaped, or a pair of quotes when it has none. */
  function EscapedToken(token: string): string {
    if token == "" then "''" else EscapedBytes(token)
  }

  function EscapedBytes(token: string): string {
    if token == "" then "" else ['\\', token[0]] + EscapedBytes(token[1..])
  }

  function EscapedLine(tokens: seq<string>): string {
    if tokens == [] then ""
    else if |tokens| == 1 then EscapedToken(tokens[0])
    else EscapedToken(tokens[0]) + " " + EscapedLine(tokens[1..])
  }

  lemma {:induction false} ScannedEscapes(l: Lexer, token: string)
    requires Neutral(l)
    ensures Scanned(l, EscapedBytes(token)) == l.(cur := l.cur + token, inToken := l.inToken || token != "")
    decreases |token|
  {
    if token == "" {
      assert l.cur + token == l.cur;
    } else {
      var p := Escape(token[0]);
      ScannedConcat(l, p.Text(), EscapedBytes(token[1..]));
      ScannedPiece(l, p);
      ScannedEscapes(Scanned(l, p.Text()), token[1..]);
      assert l.cur + [token[0]] + token[1..] == l.cur + token;
    }
  }

  lemma SplitOfToken(token: string)
    ensures Split(EscapedToken(token)) == Tokens([token])
  {
    if token == "" {
      SplitOfPieces([Quoted('\'', "")], '"', "");
      assert Rendered([Quoted('\'', "")]) == "''";
      assert [Quoted('\'', "")][1..] == [];
    } else {
      ScannedEscapes(START, token);
      assert "" + token == token;
    }
  }

  /** Escaping tokens and joining them with spaces splits back into the tokens. */
  lemma {:induction false} EscapeRoundTrip(tokens: seq<string>)
    ensures Split(EscapedLine(tokens)) == Tokens(tokens)
    decreases |tokens|
  {
    hide Split, EscapedToken;
    if tokens == [] {
      SplitOfNothing();
    } else {
      SplitOfToken(tokens[0]);
      if |tokens| == 1 {
        assert tokens == [tokens[0]];
      } else {
        EscapeRoundTrip(tokens[1..]);
        SplitOfJoined(EscapedToken(tokens[0]), EscapedLine(tokens[1..]));
        assert [tokens[0]] + tokens[1..] == tokens;
      }
    }
  }

  lemma SplitOfNothing()
    ensures Split("") == Tokens([])
  {
  }
}
