/** The words of an SQL line as a reader of ABAP sees them (adt/query_wrap.go: sqlWords): plain text,
    string literals and string templates, side by side. The lexer is proved to keep them whole. */
module SqlPieces {
  import opened Text
  import opened QueryWrap

  datatype Piece = Plain(text: string) | Literal(quote: char, body: string) | Template(body: string)

  /** Between its bars a template has no bar, but for those behind a backslash. */
  predicate IsTemplateBody(b: string) {
    b == ""
    || (if b[0] == '\\' then |b| > 1 && IsTemplateBody(b[2..]) else b[0] != '|' && IsTemplateBody(b[1..]))
  }

  predicate IsPiece(p: Piece) {
    match p
    case Plain(text) => forall c | c in text :: c !in {' ', '\t', '\'', '`', '|', '"'}
    case Literal(quote, body) => (quote == '\'' || quote == '`') && quote !in body
    case Template(body) => IsTemplateBody(body)
  }

  function PieceText(p: Piece): string {
    match p
    case Plain(text) => text
    case Literal(quote, body) => [quote] + body + [quote]
    case Template(body) => "|" + body + "|"
  }

  /** A word of such pieces, none of which is left open. */
  ghost predicate IsWhole(w: string) {
    exists ps :: (forall p | p in ps :: IsPiece(p)) && FlatMap(PieceText, ps) == w
  }

  // ---------------------------------------------------------------------------
  // What is whole is not split
  // ---------------------------------------------------------------------------

  predicate StaysIn(m: Mode, w: string, m': Mode) { Solid(m, w) && After(m, w) == m' }

  lemma StaysAppend(m: Mode, a: string, m1: Mode, b: string, m2: Mode)
    requires StaysIn(m, a, m1) && StaysIn(m1, b, m2)
    ensures StaysIn(m, a + b, m2)
  {
    AfterAppend(m, a, b);
  }

  lemma {:induction false} PlainStays(w: string)
    requires IsPiece(Plain(w))
    ensures StaysIn(Code, w, Code)
  {
    if w != "" {
      assert w[0] in w && forall c | c in w[1..] :: c in w;
      PlainStays(w[1..]);
    }
  }

  lemma {:induction false} BodyStays(quote: char, body: string)
    requires quote != '|' && quote !in body
    ensures StaysIn(Quoted(quote), body, Quoted(quote))
  {
    if body != "" {
      assert body[0] in body && forall c | c in body[1..] :: c in body;
      BodyStays(quote, body[1..]);
    }
  }

  lemma {:induction false} TemplateStays(body: string)
    requires IsTemplateBody(body)
    ensures StaysIn(Quoted('|'), body, Quoted('|'))
    decreases |body|
  {
    if body != "" {
      if body[0] == '\\' {
        TemplateStays(body[2..]);
        assert body[1..][1..] == body[2..];
      } else {
        TemplateStays(body[1..]);
      }
    }
  }

  lemma {:induction false} Delimiter(quote: char)
    requires IsQuote(quote)
    ensures StaysIn(Code, [quote], Quoted(quote)) && StaysIn(Quoted(quote), [quote], Code)
  {
    assert [quote][1..] == "";
  }

  lemma {:induction false} PieceStays(p: Piece)
    requires IsPiece(p)
    ensures StaysIn(Code, PieceText(p), Code)
  {
    match p
    case Plain(text) => PlainStays(text);
    case Literal(quote, body) =>
      Delimiter(quote);
      BodyStays(quote, body);
      StaysAppend(Code, [quote], Quoted(quote), body, Quoted(quote));
      StaysAppend(Code, [quote] + body, Quoted(quote), [quote], Code);
    case Template(body) =>
      Delimiter('|');
      TemplateStays(body);
      StaysAppend(Code, "|", Quoted('|'), body, Quoted('|'));
      StaysAppend(Code, "|" + body, Quoted('|'), "|", Code);
  }

  lemma {:induction false} PiecesStay(ps: seq<Piece>)
    requires forall p | p in ps :: IsPiece(p)
    ensures StaysIn(Code, FlatMap(PieceText, ps), Code)
  {
    if ps != [] {
      PieceStays(ps[0]);
      PiecesStay(ps[1..]);
      StaysAppend(Code, PieceText(ps[0]), Code, FlatMap(PieceText, ps[1..]), Code);
    }
  }

  // ---------------------------------------------------------------------------
  // What is not split is whole
  // ---------------------------------------------------------------------------

  /** A literal that is closed ends at the first quote. */
  lemma {:induction false} CloseLiteral(quote: char, s: string) returns (body: string, rest: string)
    requires quote != '|' && StaysIn(Quoted(quote), s, Code)
    ensures s == body + [quote] + rest && quote !in body && StaysIn(Code, rest, Code)
  {
    if s[0] == quote {
      body, rest := "", s[1..];
      assert s == "" + [quote] + rest;
    } else {
      body, rest := CloseLiteral(quote, s[1..]);
      assert s == [s[0]] + s[1..] && [s[0]] + (body + [quote] + rest) == ([s[0]] + body) + [quote] + rest;
      body := [s[0]] + body;
    }
  }

  /** A template that is closed ends at the first bar that no backslash escapes. */
  lemma {:induction false} CloseTemplate(s: string) returns (body: string, rest: string)
    requires StaysIn(Quoted('|'), s, Code)
    ensures s == body + "|" + rest && IsTemplateBody(body) && StaysIn(Code, rest, Code)
    decreases |s|
  {
    if s[0] == '|' {
      body, rest := "", s[1..];
      assert s == "" + "|" + rest;
    } else if s[0] == '\\' {
      var t := s[1..];
      assert StaysIn(Escaped, t, Code);
      assert |t| > 0 && StaysIn(Next(Escaped, t[0]), t[1..], Code) && t[1..] == s[2..];
      var tail;
      tail, rest := CloseTemplate(s[2..]);
      body := s[..2] + tail;
      assert s == s[..2] + s[2..] && s[..2] + (tail + "|" + rest) == body + "|" + rest;
      assert body[0] == '\\' && body[2..] == tail;
    } else {
      var tail;
      tail, rest := CloseTemplate(s[1..]);
      body := [s[0]] + tail;
      assert s == [s[0]] + s[1..] && [s[0]] + (tail + "|" + rest) == body + "|" + rest;
      assert body[0] == s[0] && body[1..] == tail;
    }
  }

  lemma {:induction false} FirstPiece(w: string) returns (p: Piece, rest: string)
    requires w != "" && StaysIn(Code, w, Code)
    ensures IsPiece(p) && w == PieceText(p) + rest && |rest| < |w| && StaysIn(Code, rest, Code)
  {
    if w[0] == '|' {
      var body;
      body, rest := CloseTemplate(w[1..]);
      p := Template(body);
      assert w == "|" + w[1..] && "|" + (body + "|" + rest) == "|" + body + "|" + rest;
    } else if IsQuote(w[0]) {
      var body;
      body, rest := CloseLiteral(w[0], w[1..]);
      p := Literal(w[0], body);
      assert w == [w[0]] + w[1..] && [w[0]] + (body + [w[0]] + rest) == [w[0]] + body + [w[0]] + rest;
    } else {
      p, rest := Plain([w[0]]), w[1..];
      assert w == [w[0]] + w[1..];
    }
  }

  lemma {:induction false} PiecesOf(w: string) returns (ps: seq<Piece>)
    requires StaysIn(Code, w, Code)
    ensures (forall p | p in ps :: IsPiece(p)) && FlatMap(PieceText, ps) == w
    decreases |w|
  {
    ps := [];
    if w != "" {
      var p, rest := FirstPiece(w);
      var more := PiecesOf(rest);
      ps := [p] + more;
      FlatMapCons(PieceText, p, more);
    }
  }

  /** The lexer leaves a text whole, and closed, exactly when it is plain text, literals and templates. */
  lemma {:induction false} WholeExactly(w: string)
    ensures IsWhole(w) <==> Solid(Code, w) && After(Code, w) == Code
  {
    if ps :| (forall p | p in ps :: IsPiece(p)) && FlatMap(PieceText, ps) == w {
      PiecesStay(ps);
    }
    if StaysIn(Code, w, Code) {
      var ps := PiecesOf(w);
    }
  }

  // ---------------------------------------------------------------------------
  // Lines
  // ---------------------------------------------------------------------------

  /** Whatever the line holds, every word is whole but the last one, which is when nothing is left open. */
  lemma {:induction false} WordsAreWhole(line: string)
    ensures var lexed := Lex(line); var ws := lexed.words;
            && (forall i | 0 <= i < |ws| - 1 :: IsWhole(ws[i]))
            && (ws != [] ==> (IsWhole(ws[|ws| - 1]) <==> !lexed.open)) && (ws == [] ==> !lexed.open)
  {
    LexGivesWordList(line);
    var ws := Lex(line).words;
    forall i | 0 <= i < |ws| ensures IsWhole(ws[i]) <==> After(Code, ws[i]) == Code {
      WholeExactly(ws[i]);
    }
  }

  /** And whole words, with blanks between them, are read as they are; a '"' behind them begins a comment. */
  lemma {:induction false} WholeWordsAreRead(ws: seq<string>, comment: string)
    requires forall w | w in ws :: w != "" && IsWhole(w)
    ensures Lex(Join(ws, " ")) == Lexed(ws, false) == Lex(Join(ws, " ") + "\"" + comment)
  {
    forall i | 0 <= i < |ws| ensures ws[i] != "" && Solid(Code, ws[i]) && After(Code, ws[i]) == Code {
      assert ws[i] in ws;
      WholeExactly(ws[i]);
    }
    LexOfJoin(ws, false);
    CommentIsDropped(ws, comment);
  }

  lemma {:induction false} CommentIsDropped(ws: seq<string>, comment: string)
    requires WordList(ws, false)
    ensures Lex(Join(ws, " ") + "\"" + comment) == Lexed(ws, false)
  {
    var end := "\"" + comment;
    assert Join(ws, " ") + "\"" + comment == Join(ws, " ") + end;
    if ws == [] {
      assert "" + end == end;
    } else if |ws| == 1 {
      ScanSolid(ws[0], end, Code, "");
      assert "" + ws[0] == ws[0];
    } else {
      var tail := Join(ws[1..], " ");
      assert Join(ws, " ") + end == ws[0] + (" " + (tail + end));
      ScanSolid(ws[0], " " + (tail + end), Code, "");
      assert "" + ws[0] == ws[0] && (" " + (tail + end))[1..] == tail + end;
      CommentIsDropped(ws[1..], comment);
      assert tail + "\"" + comment == tail + end && [ws[0]] + ws[1..] == ws;
    }
  }

  // ---------------------------------------------------------------------------
  // Groups and lines
  // ---------------------------------------------------------------------------

  /** Of a group, every word but the first begins with a star, and the first one does not, unless there
      is no word before it. */
  ghost predicate AreStarGroups(gs: seq<seq<string>>) {
    && (forall i | 0 <= i < |gs| :: IsStarGroup(gs[i])) && (forall i | 0 < i < |gs| :: !Starred(gs[i][0]))
  }

  predicate IsStarGroup(g: seq<string>) { g != [] && forall j | 0 < j < |g| :: Starred(g[j]) }

  /** The units of a line are its words, those that begin with a star glued to the word before them. */
  lemma {:induction false} GroupsAreExact(raw: seq<string>)
    ensures Flatten(Group(raw)) == raw && AreStarGroups(Group(raw))
  {
    GroupPartitions(raw);
    GroupsAreStarGroups(raw);
  }

  lemma {:induction false} GroupsAreStarGroups(raw: seq<string>)
    ensures forall i | 0 <= i < |Group(raw)| :: IsStarGroup(Group(raw)[i])
  {
    if raw != [] {
      var n := |raw| - 1;
      var gs, w := Group(raw[..n]), raw[n];
      GroupsAreStarGroups(raw[..n]);
      if Starred(w) && gs != [] {
        assert IsStarGroup(gs[|gs| - 1]) && IsStarGroup(gs[|gs| - 1] + [w]);
      } else {
        assert IsStarGroup([w]);
      }
    }
  }

  /** Lines filled greedily: each holds a run of units, a blank between them; one of several units is no
      longer than 200 characters, and the next unit would have made it longer. */
  ghost predicate AreGreedy(lines: seq<string>, runs: seq<seq<string>>, indent: string) {
    && |lines| == |runs|
    && (forall k | 0 <= k < |runs| :: IsLine(lines[k], runs[k], if k == 0 then indent else " "))
    && (forall k {:trigger IsFull(lines, runs, k)} | 0 <= k < |runs| - 1 :: IsFull(lines, runs, k))
  }

  predicate IsLine(line: string, run: seq<string>, indent: string) {
    run != [] && line == indent + Join(run, " ") && (|run| > 1 ==> |line| <= 200)
  }

  predicate IsFull(lines: seq<string>, runs: seq<seq<string>>, k: nat)
    requires k + 1 < |runs| == |lines|
  {
    runs[k + 1] != [] && |lines[k]| + 1 + |runs[k + 1][0]| > 200
  }

  lemma {:induction false} GreedyCons(line: string, run: seq<string>, indent: string, lines: seq<string>,
                                      runs: seq<seq<string>>)
    requires AreGreedy(lines, runs, " ") && runs != [] && IsLine(line, run, indent)
    requires |line| + 1 + |runs[0][0]| > 200
    ensures AreGreedy([line] + lines, [run] + runs, indent)
  {
    var ls, rs := [line] + lines, [run] + runs;
    forall k | 0 <= k < |rs| ensures IsLine(ls[k], rs[k], if k == 0 then indent else " ") {
      if k > 0 {
        assert IsLine(lines[k - 1], runs[k - 1], " ") && ls[k] == lines[k - 1] && rs[k] == runs[k - 1];
      }
    }
    forall k | 0 <= k < |rs| - 1 ensures IsFull(ls, rs, k) {
      if k > 0 {
        assert IsFull(lines, runs, k - 1) && ls[k] == lines[k - 1] && rs[k + 1] == runs[k];
      } else {
        assert IsLine(lines[0], runs[0], " ") && rs[1] == runs[0];
      }
    }
  }

  lemma {:induction false} PackFrom(units: seq<string>, indent: string, run: seq<string>)
    returns (runs: seq<seq<string>>)
    requires IsLine(indent + Join(run, " "), run, indent)
    ensures runs != [] && run <= runs[0] && Flatten(runs) == run + units
    ensures AreGreedy(Pack(units, indent + Join(run, " "), |run|), runs, indent)
    decreases |units|
  {
    var cur := indent + Join(run, " ");
    if units == [] {
      runs := [run];
      FlatMapOne(Words, run);
      assert Pack(units, cur, |run|) == [cur] && run + [] == run;
    } else {
      var u := units[0];
      assert units == [u] + units[1..];
      if |cur| + 1 + |u| > 200 {
        var rest := PackFrom(units[1..], " ", [u]);
        runs := [run] + rest;
        GreedyCons(cur, run, indent, Pack(units[1..], " " + u, 1), rest);
        FlatMapCons(Words, run, rest);
        assert run + ([u] + units[1..]) == run + units;
      } else {
        JoinAppend(run, [u], " ");
        assert indent + Join(run + [u], " ") == cur + " " + u;
        runs := PackFrom(units[1..], indent, run + [u]);
        assert (run + [u]) + units[1..] == run + units;
      }
    }
  }

  /** wrapSQLLine fills its lines greedily, up to 200 characters, with the units in order. */
  lemma {:induction false} PackIsGreedy(units: seq<string>, indent: string) returns (runs: seq<seq<string>>)
    ensures Flatten(runs) == units && AreGreedy(Pack(units, indent, 0), runs, indent)
  {
    if units == [] {
      runs := [];
    } else {
      runs := PackFrom(units[1..], indent, [units[0]]);
      assert units == [units[0]] + units[1..];
    }
  }
}
