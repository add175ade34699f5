/** Re-wrapping of overlong SQL lines for the ADT data preview (adt/query_wrap.go).

    The lexer is specified as an automaton that reads one character at a time; the loop of the
    program, which looks one character ahead, is proved equal to it. On top of the automaton the
    wrapper is proved to keep the words of the line, on every input. */
module QueryWrap {
  import opened Text
  import opened Wrappers

  const DATA_PREVIEW_MAX_LINE := 255
  const DATA_PREVIEW_WRAP_WIDTH := 200

  // ---------------------------------------------------------------------------
  // The lexer
  // ---------------------------------------------------------------------------

  /** Outside literals, inside one that q closes, or after a backslash in a template. */
  datatype Mode = Code | Quoted(q: char) | Escaped

  /** The words of a line, and whether the line ended inside a literal or template. */
  datatype Lexed = Lexed(words: seq<string>, open: bool)

  predicate IsBlank(c: char) { c == ' ' || c == '\t' }

  predicate IsQuote(c: char) { c == '\'' || c == '`' || c == '|' }

  /** The mode after a character that belongs to a word. */
  function Next(m: Mode, c: char): Mode {
    match m
    case Escaped => Quoted('|')
    case Quoted(q) => if q == '|' && c == '\\' then Escaped else if c == q then Code else m
    case Code => if IsQuote(c) then Quoted(c) else Code
  }

  function Flush(cur: string): seq<string> { if cur == "" then [] else [cur] }

  /** The lexer as an automaton: reads s in mode m, with cur the word begun so far. */
  function Scan(s: string, m: Mode, cur: string): Lexed {
    if s == "" then Lexed(Flush(cur), m != Code)
    else if m == Code && s[0] == '"' then Lexed(Flush(cur), false)
    else if m == Code && IsBlank(s[0]) then
      var rest := Scan(s[1..], Code, "");
      Lexed(Flush(cur) + rest.words, rest.open)
    else Scan(s[1..], Next(m, s[0]), cur + [s[0]])
  }

  /** The words of one SQL line. */
  function Lex(line: string): Lexed { Scan(line, Code, "") }

  /** The mode after the characters of w, all of which belong to a word. */
  function After(m: Mode, w: string): Mode
    decreases w
  {
    if w == "" then m else After(Next(m, w[0]), w[1..])
  }

  /** No character of w ends a word or starts a comment. */
  predicate Solid(m: Mode, w: string)
    decreases w
  {
    w == "" || (!(m == Code && (IsBlank(w[0]) || w[0] == '"')) && Solid(Next(m, w[0]), w[1..]))
  }

  /** The lexer of the program: it looks one character ahead after a backslash. */
  method SqlWords(line: string) returns (words: seq<string>, unterminated: bool)
    ensures Lexed(words, unterminated) == Lex(line)
  {
    words := [];
    var cur := "";
    var quote := '\0';
    var i := 0;
    ghost var all := Lex(line);
    assert line[0..] == line;
    while i < |line|
      invariant 0 <= i <= |line|
      invariant quote == '\0' || IsQuote(quote)
      invariant Lexing(all, words, line[i..], ModeOf(quote), cur)
      decreases |line| - i
    {
      var r := line[i];
      assert line[i..] == [r] + line[i + 1..];
      LexingOn(all, words, r, line[i + 1..], ModeOf(quote), cur);
      if quote == '|' && r == '\\' && i + 1 < |line| {
        assert line[i + 1..] == [line[i + 1]] + line[i + 2..];
        LexingOn(all, words, line[i + 1], line[i + 2..], Escaped, cur + [r]);
        cur := cur + [r];
        cur := cur + [line[i + 1]];
        i := i + 1;
      } else if quote != '\0' {
        cur := cur + [r];
        if r == quote {
          quote := '\0';
        } else if quote == '|' && r == '\\' {
          assert line[i + 1..] == "";
          LexingEnds(all, words, Escaped, cur);
        }
      } else if IsQuote(r) {
        quote := r;
        cur := cur + [r];
      } else if r == '"' {
        words := words + Flush(cur);
        return words, false;
      } else if IsBlank(r) {
        words := words + Flush(cur);
        cur := "";
      } else {
        cur := cur + [r];
      }
      i := i + 1;
    }
    LexingEnds(all, words, ModeOf(quote), cur);
    words := words + Flush(cur);
    unterminated := quote != '\0';
  }

  /** With words read and cur begun, reading what is left in mode m comes to all. */
  ghost predicate Lexing(all: Lexed, words: seq<string>, left: string, m: Mode, cur: string) {
    all == Lexed(words + Scan(left, m, cur).words, Scan(left, m, cur).open)
  }

  lemma {:induction false} LexingOn(all: Lexed, words: seq<string>, c: char, rest: string, m: Mode, cur: string)
    requires Lexing(all, words, [c] + rest, m, cur)
    ensures if m == Code && c == '"' then all == Lexed(words + Flush(cur), false)
            else if m == Code && IsBlank(c) then Lexing(all, words + Flush(cur), rest, Code, "")
            else Lexing(all, words, rest, Next(m, c), cur + [c])
  {
    assert ([c] + rest)[1..] == rest;
    if m == Code && IsBlank(c) {
      var tail := Scan(rest, Code, "").words;
      assert words + (Flush(cur) + tail) == (words + Flush(cur)) + tail;
    }
  }

  lemma {:induction false} LexingEnds(all: Lexed, words: seq<string>, m: Mode, cur: string)
    requires Lexing(all, words, "", m, cur)
    ensures all == Lexed(words + Flush(cur), m != Code)
  {}

  function ModeOf(quote: char): Mode { if quote == '\0' then Code else Quoted(quote) }

  // ---------------------------------------------------------------------------
  // What the lexer does to words put back together
  // ---------------------------------------------------------------------------

  lemma {:induction false} AfterAppend(m: Mode, a: string, b: string)
    decreases a
    ensures After(m, a + b) == After(After(m, a), b)
    ensures Solid(m, a + b) <==> Solid(m, a) && Solid(After(m, a), b)
  {
    if a == "" {
      assert a + b == b;
    } else {
      AfterAppend(Next(m, a[0]), a[1..], b);
      assert (a + b)[1..] == a[1..] + b;
    }
  }

  /** The lexer reads a solid word without splitting it. */
  lemma {:induction false} ScanSolid(w: string, rest: string, m: Mode, cur: string)
    requires Solid(m, w)
    ensures Scan(w + rest, m, cur) == Scan(rest, After(m, w), cur + w)
  {
    if w == "" {
      assert w + rest == rest && cur + w == cur;
    } else {
      assert (w + rest)[1..] == w[1..] + rest;
      ScanSolid(w[1..], rest, Next(m, w[0]), cur + [w[0]]);
      assert cur + [w[0]] + w[1..] == cur + w;
    }
  }

  /** What the lexer can produce: non-empty solid words, all closed but possibly the last. */
  predicate WordList(ws: seq<string>, open: bool) {
    && (forall i | 0 <= i < |ws| :: ws[i] != "" && Solid(Code, ws[i]))
    && (forall i | 0 <= i < |ws| - 1 :: After(Code, ws[i]) == Code)
    && (if ws == [] then !open else (After(Code, ws[|ws| - 1]) != Code) == open)
  }

  lemma {:induction false} ScanGivesWordList(s: string, m: Mode, cur: string)
    requires Solid(Code, cur) && After(Code, cur) == m
    ensures WordList(Scan(s, m, cur).words, Scan(s, m, cur).open)
  {
    if s == "" || (m == Code && s[0] == '"') {
    } else if m == Code && IsBlank(s[0]) {
      ScanGivesWordList(s[1..], Code, "");
    } else {
      AfterAppend(Code, cur, [s[0]]);
      ScanGivesWordList(s[1..], Next(m, s[0]), cur + [s[0]]);
    }
  }

  lemma LexGivesWordList(line: string)
    ensures WordList(Lex(line).words, Lex(line).open)
  {
    ScanGivesWordList(line, Code, "");
  }

  /** Lexing words joined by single spaces gives the words back. */
  lemma {:induction false} LexOfJoin(ws: seq<string>, open: bool)
    requires WordList(ws, open)
    ensures Lex(Join(ws, " ")) == Lexed(ws, open)
  {
    if |ws| == 1 {
      ScanSolid(ws[0], "", Code, "");
      assert ws[0] + "" == ws[0] && "" + ws[0] == ws[0];
    } else if |ws| > 1 {
      var tail := Join(ws[1..], " ");
      assert Join(ws, " ") == ws[0] + (" " + tail);
      ScanSolid(ws[0], " " + tail, Code, "");
      assert "" + ws[0] == ws[0] && (" " + tail)[1..] == tail;
      LexOfJoin(ws[1..], open);
      assert [ws[0]] + ws[1..] == ws;
    }
  }

  lemma LexOfIndent(s: string)
    ensures Lex(" " + s) == Lex(s)
  {
    assert (" " + s)[1..] == s;
  }

  // ---------------------------------------------------------------------------
  // Merging and packing
  // ---------------------------------------------------------------------------

  predicate Starred(w: string) { w != "" && w[0] == '*' }

  /** A word that starts with '*' joins the group of the word before it, if there is one. */
  function Group(raw: seq<string>): (gs: seq<seq<string>>)
    ensures raw != [] <==> gs != []
    ensures forall i | 0 <= i < |gs| :: gs[i] != []
  {
    if raw == [] then [] else
    var w := raw[|raw| - 1];
    var gs := Group(raw[..|raw| - 1]);
    if Starred(w) && gs != [] then gs[..|gs| - 1] + [gs[|gs| - 1] + [w]] else gs + [[w]]
  }

  function Texts(gs: seq<seq<string>>): (ts: seq<string>)
    ensures |ts| == |gs|
    ensures forall i | 0 <= i < |gs| :: ts[i] == Join(gs[i], " ")
  {
    if gs == [] then [] else [Join(gs[0], " ")] + Texts(gs[1..])
  }

  /** One step of the merging loop. */
  lemma TextsStep(raw: seq<string>, i: nat)
    requires i < |raw|
    ensures var before, w := Texts(Group(raw[..i])), raw[i];
            Texts(Group(raw[..i + 1])) ==
            if Starred(w) && before != [] then before[|before| - 1 := before[|before| - 1] + (" " + w)]
            else before + [w]
  {
    var gs, w := Group(raw[..i]), raw[i];
    assert raw[..i + 1][..i] == raw[..i];
    if Starred(w) && gs != [] {
      GlueToLast(gs, w);
    } else {
      assert Texts(gs + [[w]]) == Texts(gs) + [w];
    }
  }

  lemma {:induction false} GlueToLast(gs: seq<seq<string>>, w: string)
    requires gs != [] && gs[|gs| - 1] != []
    ensures var m, ts := |gs| - 1, Texts(gs);
            Texts(gs[..m] + [gs[m] + [w]]) == ts[m := ts[m] + (" " + w)]
  {
    var m := |gs| - 1;
    JoinAppend(gs[m], [w], " ");
    assert Join(gs[m] + [w], " ") == Join(gs[m], " ") + (" " + w);
  }

  /** The star-merged words of a line, the units a wrap never splits. */
  function Units(line: string): seq<string> { Texts(Group(Lex(line).words)) }

  /** The greedy packing of units into lines, with cur the line begun and onLine units on it. */
  function Pack(units: seq<string>, cur: string, onLine: nat): seq<string> {
    if units == [] then (if onLine > 0 then [cur] else [])
    else if onLine > 0 && |cur| + 1 + |units[0]| > DATA_PREVIEW_WRAP_WIDTH then
      [cur] + Pack(units[1..], " " + units[0], 1)
    else
      Pack(units[1..], (if onLine > 0 then cur + " " else cur) + units[0], onLine + 1)
  }

  function Indent(line: string): string {
    if line != "" && IsBlank(line[0]) then " " else ""
  }

  predicate Fits(l: string) { |l| <= DATA_PREVIEW_MAX_LINE }

  datatype WrapResult =
    | Lines(lines: seq<string>)
    | OpenLiteral(preview: string)
    | TokenTooLong(length: nat, preview: string)

  function Preview(s: string): string { if |s| <= 30 then s else s[..30] + "…" }

  /** wrapSQLLine, first loop: a word starting with '*' is appended to the word before it. */
  method MergeStars(rawWords: seq<string>) returns (words: seq<string>)
    ensures words == Texts(Group(rawWords))
  {
    words := [];
    for i := 0 to |rawWords|
      invariant words == Texts(Group(rawWords[..i]))
    {
      var w := rawWords[i];
      TextsStep(rawWords, i);
      if Starred(w) && |words| > 0 {
        words := words[|words| - 1 := words[|words| - 1] + (" " + w)];
      } else {
        words := words + [w];
      }
    }
    assert rawWords[..|rawWords|] == rawWords;
  }

  /** wrapSQLLine, second loop: the units are packed greedily into lines. */
  method PackLines(words: seq<string>, indent: string) returns (out: seq<string>)
    ensures out == Pack(words, indent, 0)
  {
    var cur := indent;
    var curLen, onLine := |cur|, 0;
    out := [];
    for i := 0 to |words|
      invariant curLen == |cur| && onLine >= 0
      invariant Pack(words, indent, 0) == out + Pack(words[i..], cur, onLine)
    {
      var w := words[i];
      assert words[i..][0] == w && words[i..][1..] == words[i + 1..];
      var wLen := |w|;
      if onLine > 0 && curLen + 1 + wLen > DATA_PREVIEW_WRAP_WIDTH {
        ghost var tail := Pack(words[i + 1..], " " + w, 1);
        assert out + ([cur] + tail) == (out + [cur]) + tail;
        out := out + [cur];
        cur, curLen, onLine := " ", 1, 0;
      }
      if onLine > 0 {
        cur := cur + " ";
        curLen := curLen + 1;
      }
      cur := cur + w;
      curLen := curLen + wLen;
      onLine := onLine + 1;
    }
    if onLine > 0 {
      out := out + [cur];
    }
  }

  /** wrapSQLLine: its result is the packing of the line's units, or an error when a line of
      the packing does not fit. */
  method WrapSQLLine(line: string) returns (r: WrapResult)
    ensures Starred(line) ==> r == Lines([])
    ensures !Starred(line) ==>
              var packed := Pack(Units(line), Indent(line), 0);
              if forall l | l in packed :: Fits(l) then r == Lines(packed) else FailureIsRight(line, r)
  {
    if |line| > 0 && line[0] == '*' {
      return Lines([]);
    }
    var rawWords, unterminated := SqlWords(line);
    var words := MergeStars(rawWords);
    var out := PackLines(words, Indent(line));
    for i := 0 to |out|
      invariant forall j | 0 <= j < i :: Fits(out[j])
    {
      if |out[i]| > DATA_PREVIEW_MAX_LINE {
        r := Overflow(line, i, rawWords, unterminated);
        return;
      }
    }
    return Lines(out);
  }

  /** The error of a line that cannot be wrapped: the literal it leaves open, or else the unit on
      the first line of the packing that does not fit. */
  predicate FailureIsRight(line: string, r: WrapResult) {
    if Lex(line).open then Lex(line).words != [] && r == OpenLiteral(Preview(Lex(line).words[|Lex(line).words| - 1]))
    else exists i ::
           0 <= i < |Wrapped(line)| && IsFirstLong(Wrapped(line), i)
           && NamesUnit(r, TrimLeftSpaces(Wrapped(line)[i]), line)
  }

  predicate IsFirstLong(ls: seq<string>, i: nat)
    requires i < |ls|
  {
    !Fits(ls[i]) && forall j | 0 <= j < i :: Fits(ls[j])
  }

  predicate NamesUnit(r: WrapResult, unit: string, line: string) {
    unit in Units(line) && |unit| >= DATA_PREVIEW_MAX_LINE && r == TokenTooLong(|unit|, Preview(unit))
  }

  /** wrapSQLLine, the error for the first line that does not fit. */
  method Overflow(line: string, i: nat, rawWords: seq<string>, unterminated: bool) returns (r: WrapResult)
    requires !Starred(line) && i < |Wrapped(line)| && IsFirstLong(Wrapped(line), i)
    requires Lexed(rawWords, unterminated) == Lex(line)
    ensures !r.Lines? && FailureIsRight(line, r)
  {
    var l := Wrapped(line)[i];
    OverlongLineIsOneUnit(line, l);
    LexGivesWordList(line);
    var token := TrimLeftSpaces(l);
    if unterminated {
      return OpenLiteral(Preview(rawWords[|rawWords| - 1]));
    }
    return TokenTooLong(|token|, Preview(token));
  }

  function TrimLeftSpaces(s: string): string {
    if s != "" && s[0] == ' ' then TrimLeftSpaces(s[1..]) else s
  }

  // ---------------------------------------------------------------------------
  // A wrap keeps the words of the line
  // ---------------------------------------------------------------------------

  /** wrapSQLLine's lines, before the check that they fit. */
  function Wrapped(line: string): seq<string> {
    if Starred(line) then [] else Pack(Units(line), Indent(line), 0)
  }

  /** The words of several lines, read line by line, and whether the last line was left open. */
  function LexLines(ls: seq<string>): Lexed {
    if ls == [] then Lexed([], false) else
    if |ls| == 1 then Lex(ls[0]) else
    var rest := LexLines(ls[1..]);
    Lexed(Lex(ls[0]).words + rest.words, rest.open)
  }

  predicate ClosedButLast(ls: seq<string>) {
    forall i | 0 <= i < |ls| - 1 :: !Lex(ls[i]).open
  }

  function Words(g: seq<string>): seq<string> { g }

  function Flatten(gs: seq<seq<string>>): seq<string> { FlatMap(Words, gs) }

  /** Grouping drops, adds and reorders nothing, and only the first group can start with '*'. */
  lemma {:induction false} GroupPartitions(raw: seq<string>)
    ensures Flatten(Group(raw)) == raw
    ensures forall i | 0 < i < |Group(raw)| :: !Starred(Group(raw)[i][0])
  {
    if raw != [] {
      var n := |raw| - 1;
      var w, gs := raw[n], Group(raw[..n]);
      GroupPartitions(raw[..n]);
      assert raw == raw[..n] + [w];
      if Starred(w) && gs != [] {
        var m := |gs| - 1;
        FlatMapAppend(Words, gs[..m], [gs[m]]);
        FlatMapAppend(Words, gs[..m], [gs[m] + [w]]);
        FlatMapOne(Words, gs[m]);
        FlatMapOne(Words, gs[m] + [w]);
        assert gs == gs[..m] + [gs[m]];
      } else {
        FlatMapAppend(Words, gs, [[w]]);
        FlatMapOne(Words, [w]);
      }
    }
  }

  lemma WordListSplit(a: seq<string>, b: seq<string>, open: bool)
    requires WordList(a + b, open) && b != []
    ensures WordList(a, false) && WordList(b, open)
  {
    var ws := a + b;
    assert forall i | 0 <= i < |a| :: ws[i] == a[i];
    assert forall i | 0 <= i < |b| :: ws[|a| + i] == b[i];
  }

  /** The packing lemma: before are the words already on the line begun, gs the groups to come. */
  lemma {:induction false} PackKeepsWords(gs: seq<seq<string>>, indent: string, before: seq<string>,
                                          onLine: nat, open: bool)
    requires indent == "" || indent == " "
    requires onLine > 0 <==> before != []
    requires forall i | 0 <= i < |gs| :: gs[i] != []
    requires WordList(before + Flatten(gs), open)
    ensures var out := Pack(Texts(gs), indent + Join(before, " "), onLine);
            LexLines(out) == Lexed(before + Flatten(gs), open) && ClosedButLast(out)
    decreases gs
  {
    var cur := indent + Join(before, " ");
    if gs == [] {
      assert before + Flatten(gs) == before;
      if before != [] { LexOfLine(indent, before, open); }
    } else {
      var units, g, rest := Texts(gs), gs[0], gs[1..];
      assert units[0] == Join(g, " ") && units[1..] == Texts(rest);
      assert forall i | 0 <= i < |rest| :: rest[i] == gs[i + 1];
      assert Flatten(gs) == g + Flatten(rest);
      if onLine > 0 && |cur| + 1 + |units[0]| > DATA_PREVIEW_WRAP_WIDTH {
        WordListSplit(before, Flatten(gs), open);
        LexOfLine(indent, before, false);
        PackKeepsWords(rest, " ", g, 1, open);
        PackNonEmpty(units[1..], " " + units[0], 1);
        LexLinesCons(cur, Pack(units[1..], " " + units[0], 1));
      } else {
        assert before + Flatten(gs) == (before + g) + Flatten(rest);
        var cur' := (if onLine > 0 then cur + " " else cur) + units[0];
        assert cur' == indent + Join(before + g, " ") by {
          if onLine > 0 {
            JoinAppend(before, g, " ");
          } else {
            assert before + g == g && cur == indent;
          }
        }
        PackKeepsWords(rest, indent, before + g, onLine + 1, open);
      }
    }
  }

  lemma LexLinesCons(l: string, tail: seq<string>)
    requires tail != [] && !Lex(l).open && ClosedButLast(tail)
    ensures LexLines([l] + tail) == Lexed(Lex(l).words + LexLines(tail).words, LexLines(tail).open)
    ensures ClosedButLast([l] + tail)
  {
    assert ([l] + tail)[1..] == tail;
  }

  lemma LexOfLine(indent: string, ws: seq<string>, open: bool)
    requires (indent == "" || indent == " ") && WordList(ws, open)
    ensures Lex(indent + Join(ws, " ")) == Lexed(ws, open)
  {
    LexOfJoin(ws, open);
    LexOfIndent(Join(ws, " "));
    assert "" + Join(ws, " ") == Join(ws, " ");
  }

  lemma PackNonEmpty(units: seq<string>, cur: string, onLine: nat)
    requires onLine > 0 || units != []
    ensures Pack(units, cur, onLine) != []
  {}

  /** The lines of a wrap hold exactly the words of the line, in order, none of them split, and
      the open literal, if any, is still open at the end. */
  lemma WrapKeepsWords(line: string)
    requires !Starred(line)
    ensures LexLines(Wrapped(line)) == Lex(line) && ClosedButLast(Wrapped(line))
  {
    var lexed := Lex(line);
    LexGivesWordList(line);
    GroupPartitions(lexed.words);
    assert [] + Flatten(Group(lexed.words)) == lexed.words;
    assert Indent(line) + Join([], " ") == Indent(line);
    PackKeepsWords(Group(lexed.words), Indent(line), [], 0, lexed.open);
  }

  // ---------------------------------------------------------------------------
  // Length: exactly which lines cannot be wrapped
  // ---------------------------------------------------------------------------

  /** The packing fits exactly when every unit fits on a line of its own. */
  lemma {:induction false} PackFits(units: seq<string>, cur: string, onLine: nat)
    requires onLine == 0 ==> |cur| <= 1
    requires onLine > 1 ==> |cur| <= DATA_PREVIEW_WRAP_WIDTH
    ensures (forall l | l in Pack(units, cur, onLine) :: Fits(l)) <==>
            && (onLine > 0 ==> Fits(cur))
            && (forall i | 0 <= i < |units| ::
                  (if onLine == 0 && i == 0 then |cur| else 1) + |units[i]| <= DATA_PREVIEW_MAX_LINE)
    decreases units
  {
    if units != [] {
      var rest := units[1..];
      assert forall i | 0 <= i < |rest| :: rest[i] == units[i + 1];
      assert forall i | 1 <= i < |units| :: units[i] == rest[i - 1];
      if onLine > 0 && |cur| + 1 + |units[0]| > DATA_PREVIEW_WRAP_WIDTH {
        PackFits(rest, " " + units[0], 1);
        var tail := Pack(rest, " " + units[0], 1);
        assert forall l :: l in [cur] + tail <==> l == cur || l in tail;
      } else {
        PackFits(rest, (if onLine > 0 then cur + " " else cur) + units[0], onLine + 1);
      }
    }
  }

  /** A line of the packing that is wider than the wrap width holds a single unit. */
  lemma {:induction false} PackWide(units: seq<string>, cur: string, onLine: nat, l: string)
    requires onLine == 0 ==> |cur| <= 1
    requires onLine > 1 ==> |cur| <= DATA_PREVIEW_WRAP_WIDTH
    requires l in Pack(units, cur, onLine) && |l| > DATA_PREVIEW_WRAP_WIDTH
    ensures (onLine == 1 && l == cur) || (onLine == 0 && units != [] && l == cur + units[0])
            || exists u | u in (if onLine == 0 && units != [] then units[1..] else units) :: l == " " + u
    decreases units
  {
    if units != [] {
      var rest := units[1..];
      assert forall i | 0 <= i < |rest| :: rest[i] == units[i + 1];
      if onLine > 0 && |cur| + 1 + |units[0]| > DATA_PREVIEW_WRAP_WIDTH {
        if l != cur {
          PackWide(rest, " " + units[0], 1, l);
        }
      } else {
        PackWide(rest, (if onLine > 0 then cur + " " else cur) + units[0], onLine + 1, l);
      }
    }
  }

  /** The line that does not fit is, without its indent, a unit. */
  lemma OverlongLineIsOneUnit(line: string, l: string)
    requires !Starred(line) && l in Wrapped(line) && !Fits(l)
    ensures TrimLeftSpaces(l) in Units(line) && |TrimLeftSpaces(l)| >= DATA_PREVIEW_MAX_LINE
  {
    var us := Units(line);
    PackWide(us, Indent(line), 0, l);
    UnitHeads(line);
    if us != [] && l == Indent(line) + us[0] {
      TrimIndent(Indent(line), us[0]);
    } else {
      var u :| u in us && l == " " + u;
      TrimIndent(" ", u);
    }
  }

  lemma TrimIndent(indent: string, u: string)
    requires (indent == "" || indent == " ") && u != "" && u[0] != ' '
    ensures TrimLeftSpaces(indent + u) == u
  {
    assert indent == " " ==> (indent + u)[1..] == u;
    assert indent == "" ==> indent + u == u;
  }

  /** The wrap fails exactly when some unit, with the indent of the line it starts, is longer
      than the data preview takes. */
  lemma WrapFailsExactly(line: string)
    requires !Starred(line)
    ensures (exists l :: l in Wrapped(line) && !Fits(l)) <==>
            exists i | 0 <= i < |Units(line)| ::
              (if i == 0 then |Indent(line)| else 1) + |Units(line)[i]| > DATA_PREVIEW_MAX_LINE
  {
    PackFits(Units(line), Indent(line), 0);
  }

  // ---------------------------------------------------------------------------
  // Comments: what a reader that knows full-line comments sees
  // ---------------------------------------------------------------------------

  function TrimLeftBlanks(s: string): string {
    if s != "" && IsBlank(s[0]) then TrimLeftBlanks(s[1..]) else s
  }

  /** A full-line comment: '*' in column 1 (ECC), or as the first non-blank character (S/4). */
  predicate IsComment(line: string, s4: bool) { Starred(if s4 then TrimLeftBlanks(line) else line) }

  /** The words a reader that knows full-line comments sees in a line. */
  function LiveOnECC(line: string): seq<string> { if IsComment(line, false) then [] else Lex(line).words }

  function LiveOnS4(line: string): seq<string> { if IsComment(line, true) then [] else Lex(line).words }

  /** Every unit but the first starts with a character that is neither blank nor '*'. */
  lemma UnitHeads(line: string)
    ensures var us := Units(line);
            && (forall i | 0 <= i < |us| :: us[i] != "" && !IsBlank(us[i][0]) && us[i][0] != '"')
            && (forall i | 0 < i < |us| :: us[i][0] != '*')
  {
    var raw := Lex(line).words;
    LexGivesWordList(line);
    GroupPartitions(raw);
    var gs := Group(raw);
    forall i | 0 <= i < |gs|
      ensures gs[i][0] != "" && Units(line)[i] != "" && Units(line)[i][0] == gs[i][0][0]
      ensures !IsBlank(gs[i][0][0]) && gs[i][0][0] != '"'
    {
      FlattenHas(gs, i);
    }
  }

  lemma {:induction false} FlattenHas(gs: seq<seq<string>>, i: nat)
    requires i < |gs| && gs[i] != []
    ensures gs[i][0] in Flatten(gs)
  {
    if i > 0 {
      FlattenHas(gs[1..], i - 1);
    }
  }

  /** A line that starts with the one-space indent and then a word, not a comment. */
  predicate IsContinuation(l: string) {
    |l| > 1 && l[0] == ' ' && !IsBlank(l[1]) && l[1] != '*' && l[1] != '"'
  }

  /** Every line after the first starts with the one-space indent and then a unit; the first
      starts with the line begun. */
  lemma {:induction false} PackHeads(units: seq<string>, cur: string, onLine: nat)
    requires forall i | 0 <= i < |units| :: units[i] != "" && !IsBlank(units[i][0]) && units[i][0] != '"'
    requires forall i | (if onLine > 0 then 0 else 1) <= i < |units| :: units[i][0] != '*'
    ensures var out := Pack(units, cur, onLine);
            && (forall i | 0 < i < |out| :: IsContinuation(out[i]))
            && (out != [] ==> if onLine > 0 then cur <= out[0] else cur + units[0] <= out[0])
    decreases units
  {
    if units != [] {
      if onLine > 0 && |cur| + 1 + |units[0]| > DATA_PREVIEW_WRAP_WIDTH {
        var tail := Pack(units[1..], " " + units[0], 1);
        PackHeads(units[1..], " " + units[0], 1);
        PackNonEmpty(units[1..], " " + units[0], 1);
      } else {
        var cur' := (if onLine > 0 then cur + " " else cur) + units[0];
        PackHeads(units[1..], cur', onLine + 1);
        PackNonEmpty(units[1..], cur', onLine + 1);
      }
    }
  }

  /** The first word of a line is where its first non-blank character is. */
  lemma {:induction false} FirstWord(line: string)
    ensures var t, us := TrimLeftBlanks(line), Lex(line).words;
            if t == "" || t[0] == '"' then us == [] else us != [] && us[0] != "" && us[0][0] == t[0]
  {
    if line != "" {
      if IsBlank(line[0]) {
        FirstWord(line[1..]);
      } else if line[0] != '"' {
        assert "" + [line[0]] == [line[0]];
        ScanHead(line[1..], Next(Code, line[0]), [line[0]]);
      }
    }
  }

  lemma {:induction false} ScanHead(s: string, m: Mode, cur: string)
    requires cur != ""
    ensures Scan(s, m, cur).words != [] && cur <= Scan(s, m, cur).words[0]
    decreases s
  {
    if s != "" && !(m == Code && (s[0] == '"' || IsBlank(s[0]))) {
      ScanHead(s[1..], Next(m, s[0]), cur + [s[0]]);
    }
  }

  lemma ContinuationIsLive(l: string)
    requires IsContinuation(l)
    ensures !IsComment(l, false) && !IsComment(l, true) && Lex(l).words != []
  {
    assert TrimLeftBlanks(l) == TrimLeftBlanks(l[1..]) == l[1..];
    FirstWord(l);
  }

  /** Over lines that are not comments, the live words are all the words. */
  lemma {:induction false} LiveIsLex(live: string -> seq<string>, ls: seq<string>)
    requires forall i | 0 <= i < |ls| :: live(ls[i]) == Lex(ls[i]).words
    ensures FlatMap(live, ls) == LexLines(ls).words
  {
    if |ls| == 1 {
      FlatMapOne(live, ls[0]);
    } else if |ls| > 1 {
      LiveIsLex(live, ls[1..]);
    }
  }

  /** The first line of a wrap reads as a comment exactly when the line did; the others never. */
  lemma WrapComments(line: string, s4: bool)
    requires !Starred(line) && Wrapped(line) != []
    ensures IsComment(Wrapped(line)[0], s4) == IsComment(line, s4)
    ensures forall i | 0 < i < |Wrapped(line)| ::
              !IsComment(Wrapped(line)[i], s4) && Lex(Wrapped(line)[i]).words != []
  {
    var us, out := Units(line), Wrapped(line);
    UnitHeads(line);
    PackHeads(us, Indent(line), 0);
    forall i | 0 < i < |out|
      ensures !IsComment(out[i], s4) && Lex(out[i]).words != []
    {
      ContinuationIsLive(out[i]);
    }
    FirstWord(line);
    LexGivesWordList(line);
    GroupPartitions(Lex(line).words);
    var gs := Group(Lex(line).words);
    assert us[0][0] == gs[0][0][0] == TrimLeftBlanks(line)[0];
    assert Indent(line) + us[0] <= out[0];
    if Indent(line) == " " {
      assert TrimLeftBlanks(out[0]) == TrimLeftBlanks(out[0][1..]) == out[0][1..];
    } else {
      assert TrimLeftBlanks(out[0]) == out[0] && TrimLeftBlanks(line) == line;
    }
  }

  /** ECC reading: for every line, the wrap's live words are the live words of the line. */
  lemma WrapKeepsLiveWordsOnECC(line: string)
    ensures FlatMap(LiveOnECC, Wrapped(line)) == LiveOnECC(line)
  {
    if !Starred(line) {
      WrapKeepsWords(line);
      if Wrapped(line) != [] {
        WrapComments(line, false);
        LiveIsLex(LiveOnECC, Wrapped(line));
      }
    }
  }

  /** The guard under which the S/4 reading changes: a comment that is not in column 1 and does
      not fit on one line of the wrap. */
  predicate IndentedCommentBreaks(line: string) {
    && IsComment(line, true) && !Starred(line)
    && |Units(line)| > 1
    && |Indent(line)| + |Join(Units(line), " ")| > DATA_PREVIEW_WRAP_WIDTH
  }

  /** S/4 reading: the wrap keeps the live words of a line except for a comment that starts
      after a blank, whose continuation lines become live SQL. */
  lemma WrapKeepsLiveWordsOnS4Exactly(line: string)
    ensures FlatMap(LiveOnS4, Wrapped(line)) == LiveOnS4(line) <==> !IndentedCommentBreaks(line)
  {
    if !Starred(line) {
      var us, out := Units(line), Wrapped(line);
      WrapKeepsWords(line);
      PackOne(us, Indent(line), 0);
      if us != [] {
        PackNonEmpty(us, Indent(line), 0);
      }
      if out != [] {
        WrapComments(line, true);
        if IsComment(line, true) {
          FirstWord(line);
          assert us != [];
          LiveIsLex(LiveOnS4, out[1..]);
          if |out| > 1 {
            assert out[1..][0] == out[1];
          }
        } else {
          LiveIsLex(LiveOnS4, out);
        }
      }
    }
  }

  /** When greedy packing needs a second line. */
  lemma {:induction false} PackOne(units: seq<string>, cur: string, onLine: nat)
    ensures |Pack(units, cur, onLine)| > 1 <==>
            if onLine > 0
            then units != [] && |cur| + 1 + |Join(units, " ")| > DATA_PREVIEW_WRAP_WIDTH
            else |units| > 1 && |cur| + |Join(units, " ")| > DATA_PREVIEW_WRAP_WIDTH
    decreases units
  {
    if units != [] {
      if onLine > 0 && |cur| + 1 + |units[0]| > DATA_PREVIEW_WRAP_WIDTH {
        PackNonEmpty(units[1..], " " + units[0], 1);
      } else {
        PackOne(units[1..], (if onLine > 0 then cur + " " else cur) + units[0], onLine + 1);
      }
    }
  }

  /** Such a comment: a star and two words of 200 letters, the second on a line of its own. */
  lemma CommentOfTwoLines(a: string)
    requires |a| == 200 && forall i | 0 <= i < 200 :: a[i] == 'a'
    ensures var head, tail := " *" + a, " " + a;
            && !Fits(head + tail) && IndentedCommentBreaks(head + tail) && Wrapped(head + tail) == [head, tail]
            && LiveOnS4(head + tail) == LiveOnS4(head) == [] && LiveOnS4(tail) == [a]
  {
    var w, head, tail := "*" + a, " *" + a, " " + a;
    assert head + tail == " " + (w + " " + a) && head == " " + w;
    SolidLetters(w);
    SolidLetters(a);
    UnitsOfTwo(w, a);
    PackTwo(w, a);
    LexOfJoin([a], false);
    LexOfIndent(a);
    TrimmedLine(w + " " + a);
    TrimmedLine(w);
    TrimmedLine(a);
  }

  lemma UnitsOfTwo(w: string, a: string)
    requires WordList([w, a], false) && !Starred(a)
    ensures Units(" " + (w + " " + a)) == [w, a] && WordList([a], false)
  {
    var ws := [w, a];
    assert ws[1..] == [a] && ws[1] == a;
    LexOfJoin(ws, false);
    LexOfIndent(w + " " + a);
    TwoUnits(w, a);
  }

  lemma PackTwo(w: string, a: string)
    requires |w| + 2 + |a| > DATA_PREVIEW_WRAP_WIDTH
    ensures Pack([w, a], " ", 0) == [" " + w, " " + a]
  {
    assert [w, a][1..] == [a] && [a][1..] == [];
    assert Pack([a], " " + w, 1) == [" " + w] + Pack([], " " + a, 1);
    assert Pack([w, a], " ", 0) == Pack([a], " " + w, 1);
  }

  lemma TrimmedLine(s: string)
    requires s != "" && !IsBlank(s[0])
    ensures TrimLeftBlanks(" " + s) == s
  {
    assert (" " + s)[1..] == s;
  }

  lemma TwoUnits(w: string, a: string)
    requires !Starred(a)
    ensures Texts(Group([w, a])) == [w, a]
  {
    assert [w, a][..1] == [w] && [w][..0] == [];
    assert Group([w]) == [[w]] && Group([w, a]) == [[w], [a]];
    var ts := Texts([[w], [a]]);
    assert ts[0] == w && ts[1] == a;
  }

  lemma {:induction false} SolidLetters(w: string)
    requires forall i | 0 <= i < |w| :: w[i] == 'a' || w[i] == '*'
    ensures Solid(Code, w) && After(Code, w) == Code
  {
    if w != "" {
      SolidLetters(w[1..]);
    }
  }

  // ---------------------------------------------------------------------------
  // The whole statement
  // ---------------------------------------------------------------------------

  function TrimSuffixCR(l: string): string {
    if l != "" && l[|l| - 1] == '\r' then l[..|l| - 1] else l
  }

  function TrimSuffixCRs(ls: seq<string>): seq<string> {
    if ls == [] then [] else [TrimSuffixCR(ls[0])] + TrimSuffixCRs(ls[1..])
  }

  /** Some line of the statement is longer than the data preview takes. */
  predicate HasLongLine(sql: string) {
    exists l :: l in Split(sql, '\n') && !Fits(TrimSuffixCR(l))
  }

  function LinesOf(sql: string): seq<string> { TrimSuffixCRs(Split(sql, '\n')) }

  function WrappedOrKept(line: string): seq<string> {
    if Fits(line) then [line] else Wrapped(line)
  }

  function WrapAll(ls: seq<string>): seq<string> { FlatMap(WrappedOrKept, ls) }

  predicate AllFit(ls: seq<string>) { forall l | l in ls :: Fits(l) }

  /** The statement as it is sent: unchanged without long lines, else with all of them re-wrapped;
      nothing when one of them cannot be. */
  function Rewrap(sql: string): Option<string> {
    if !HasLongLine(sql) then Some(sql)
    else if AllFit(WrapAll(LinesOf(sql))) then Some(Join(WrapAll(LinesOf(sql)), "\n"))
    else None
  }

  /** The error names the first line that cannot be wrapped. */
  predicate NamesFirstUnwrappable(r: TextResult, ls: seq<string>) {
    && r.Unwrappable? && 1 <= r.lineNo <= |ls|
    && !AllFit(WrappedOrKept(ls[r.lineNo - 1])) && AllFit(WrapAll(ls[..r.lineNo - 1]))
    && FailureIsRight(ls[r.lineNo - 1], r.cause)
  }

  datatype TextResult = Whole(sql: string) | Unwrappable(lineNo: nat, cause: WrapResult)

  /** wrapLongSQLLines, second loop: every long line is re-wrapped, up to the first that cannot be. */
  method WrapLines(lines: seq<string>) returns (r: TextResult)
    ensures var ls := TrimSuffixCRs(lines);
            if AllFit(WrapAll(ls)) then r == Whole(Join(WrapAll(ls), "\n")) else NamesFirstUnwrappable(r, ls)
  {
    ghost var ls := TrimSuffixCRs(lines);
    TrimSuffixCRsAt(lines);
    var out: seq<string> := [];
    for i := 0 to |lines|
      invariant out == WrapAll(ls[..i]) && AllFit(out)
    {
      var line := TrimSuffixCR(lines[i]);
      assert ls[i] == line;
      FlatMapCut(WrappedOrKept, ls, i);
      if |line| <= DATA_PREVIEW_MAX_LINE {
        out := out + [line];
      } else {
        var wrapped := WrapSQLLine(line);
        if !wrapped.Lines? {
          if AllFit(WrapAll(ls)) {
            AllFitPart(WrapAll(ls[..i]), WrappedOrKept(line), WrapAll(ls[i + 1..]));
          }
          return Unwrappable(i + 1, wrapped);
        }
        out := out + wrapped.lines;
      }
    }
    assert ls[..|ls|] == ls;
    return Whole(Join(out, "\n"));
  }

  /** wrapLongSQLLines. */
  method WrapLongSQLLines(sql: string) returns (r: TextResult)
    ensures if Rewrap(sql).Some? then r == Whole(Rewrap(sql).value) else NamesFirstUnwrappable(r, LinesOf(sql))
  {
    var lines := Split(sql, '\n');
    var tooLong := false;
    for i := 0 to |lines|
      invariant tooLong <==> exists l :: l in lines[..i] && !Fits(TrimSuffixCR(l))
    {
      assert lines[..i + 1] == lines[..i] + [lines[i]];
      if |TrimSuffixCR(lines[i])| > DATA_PREVIEW_MAX_LINE {
        tooLong := true;
        break;
      }
    }
    assert lines[..|lines|] == lines;
    if !tooLong {
      return Whole(sql);
    }
    r := WrapLines(lines);
  }

  lemma WrappedLinesHaveNoBreak(sql: string)
    ensures forall l | l in WrapAll(LinesOf(sql)) :: '\n' !in l
  {
    SplitParts(sql, '\n');
    TrimSuffixCRsChars(Split(sql, '\n'), '\n');
    WrapAllChars(LinesOf(sql), '\n');
  }

  /** What is sent has no long line, so a second pass changes nothing. */
  lemma RewrapLeavesNoLongLine(sql: string)
    requires Rewrap(sql).Some?
    ensures !HasLongLine(Rewrap(sql).value) && Rewrap(Rewrap(sql).value) == Rewrap(sql)
    ensures forall l | l in Split(Rewrap(sql).value, '\n') :: |TrimSuffixCR(l)| <= 255
  {
    if HasLongLine(sql) {
      WrappedLinesHaveNoBreak(sql);
      JoinFits(WrapAll(LinesOf(sql)));
    }
  }

  lemma {:induction false} TrimSuffixCRsAt(ls: seq<string>)
    ensures |TrimSuffixCRs(ls)| == |ls|
    ensures forall i | 0 <= i < |ls| :: TrimSuffixCRs(ls)[i] == TrimSuffixCR(ls[i])
  {
    if ls != [] {
      TrimSuffixCRsAt(ls[1..]);
    }
  }

  lemma AllFitPart(a: seq<string>, x: seq<string>, b: seq<string>)
    requires AllFit(a + (x + b))
    ensures AllFit(x)
  {
    forall l | l in x ensures Fits(l) {
      assert l in a + (x + b);
    }
  }

  lemma {:induction false} TrimSuffixCRsChars(ls: seq<string>, c: char)
    requires forall l | l in ls :: c !in l
    ensures forall l | l in TrimSuffixCRs(ls) :: c !in l
  {
    if ls != [] {
      TrimSuffixCRsChars(ls[1..], c);
      assert c !in ls[0] && c !in TrimSuffixCR(ls[0]);
    }
  }

  /** A wrap invents no character but the space. */
  lemma {:induction false} WrapAllChars(ls: seq<string>, c: char)
    requires c != ' ' && forall l | l in ls :: c !in l
    ensures forall l | l in WrapAll(ls) :: c !in l
  {
    if ls != [] {
      WrapAllChars(ls[1..], c);
      var raw := Lex(ls[0]).words;
      ScanChars(ls[0], Code, "", c);
      GroupPartitions(raw);
      TextsChars(Group(raw), c);
      PackChars(Units(ls[0]), Indent(ls[0]), 0, c);
    }
  }

  lemma {:induction false} ScanChars(s: string, m: Mode, cur: string, c: char)
    requires c !in s && c !in cur
    ensures forall w | w in Scan(s, m, cur).words :: c !in w
    decreases s
  {
    if s == "" || (m == Code && s[0] == '"') {
    } else if m == Code && IsBlank(s[0]) {
      ScanChars(s[1..], Code, "", c);
    } else {
      ScanChars(s[1..], Next(m, s[0]), cur + [s[0]], c);
    }
  }

  lemma {:induction false} TextsChars(gs: seq<seq<string>>, c: char)
    requires c != ' ' && forall w | w in Flatten(gs) :: c !in w
    ensures forall t | t in Texts(gs) :: c !in t
  {
    if gs != [] {
      TextsChars(gs[1..], c);
      JoinChars(gs[0], c);
    }
  }

  lemma {:induction false} JoinChars(ws: seq<string>, c: char)
    requires c != ' ' && forall w | w in ws :: c !in w
    ensures c !in Join(ws, " ")
  {
    if |ws| > 1 {
      JoinChars(ws[1..], c);
    }
  }

  lemma {:induction false} PackChars(units: seq<string>, cur: string, onLine: nat, c: char)
    requires c != ' ' && c !in cur && forall u | u in units :: c !in u
    ensures forall l | l in Pack(units, cur, onLine) :: c !in l
    decreases units
  {
    if units != [] {
      if onLine > 0 && |cur| + 1 + |units[0]| > DATA_PREVIEW_WRAP_WIDTH {
        PackChars(units[1..], " " + units[0], 1, c);
      } else {
        PackChars(units[1..], (if onLine > 0 then cur + " " else cur) + units[0], onLine + 1, c);
      }
    }
  }

  /** Lines that fit, joined, are a statement without long lines. */
  lemma JoinFits(out: seq<string>)
    requires AllFit(out) && forall l | l in out :: '\n' !in l
    ensures !HasLongLine(Join(out, "\n"))
  {
    if out != [] {
      SplitOfJoin(out, '\n');
    }
  }

  /** The rewritten lines have the live words of the lines, in order (ECC reading). */
  lemma {:induction false} LinesKeepLiveWordsOnECC(ls: seq<string>)
    ensures FlatMap(LiveOnECC, WrapAll(ls)) == FlatMap(LiveOnECC, ls)
  {
    if ls != [] {
      LinesKeepLiveWordsOnECC(ls[1..]);
      FlatMapAppend(LiveOnECC, WrappedOrKept(ls[0]), WrapAll(ls[1..]));
      FlatMapOne(LiveOnECC, ls[0]);
      WrapKeepsLiveWordsOnECC(ls[0]);
    }
  }

  /** No long line is a comment that breaks. */
  predicate NoCommentBreaks(ls: seq<string>) {
    forall i {:trigger ls[i]} | 0 <= i < |ls| :: Fits(ls[i]) || !IndentedCommentBreaks(ls[i])
  }

  /** The S/4 reading of one line: nothing changes, or words are added. */
  lemma LineOnS4(line: string)
    ensures var before, after := LiveOnS4(line), FlatMap(LiveOnS4, WrappedOrKept(line));
            if Fits(line) || !IndentedCommentBreaks(line) then after == before else |after| > |before|
  {
    FlatMapOne(LiveOnS4, line);
    WrapKeepsLiveWordsOnS4Exactly(line);
  }

  lemma {:induction false} LinesKeepLiveWordsOnS4Exactly(ls: seq<string>)
    ensures var before, after := FlatMap(LiveOnS4, ls), FlatMap(LiveOnS4, WrapAll(ls));
            if NoCommentBreaks(ls) then after == before else |after| > |before|
  {
    if ls != [] {
      LinesKeepLiveWordsOnS4Exactly(ls[1..]);
      FlatMapAppend(LiveOnS4, WrappedOrKept(ls[0]), WrapAll(ls[1..]));
      LineOnS4(ls[0]);
      assert NoCommentBreaks(ls) <==> (Fits(ls[0]) || !IndentedCommentBreaks(ls[0])) && NoCommentBreaks(ls[1..]) by {
        assert forall i | 0 <= i < |ls| - 1 :: ls[1..][i] == ls[i + 1];
        assert forall i | 0 < i < |ls| :: ls[i] == ls[1..][i - 1];
      }
    }
  }

  /** The live words of a text, on either reading of comments. */
  function LiveWords(text: string, s4: bool): seq<string> { FlatMap(Reader(s4), Split(text, '\n')) }

  function Reader(s4: bool): string -> seq<string> { if s4 then LiveOnS4 else LiveOnECC }

  lemma LiveWordsOfJoin(ls: seq<string>, s4: bool)
    requires forall l | l in ls :: '\n' !in l
    ensures LiveWords(Join(ls, "\n"), s4) == FlatMap(Reader(s4), ls)
  {
    if ls == [] {
      FlatMapOne(LiveOnS4, "");
      FlatMapOne(LiveOnECC, "");
    } else {
      SplitOfJoin(ls, '\n');
    }
  }

  /** A re-wrapped statement has the live words of its lines, which lose a final carriage return:
      on the ECC reading always. */
  lemma StatementKeepsLiveWordsOnECC(sql: string)
    requires HasLongLine(sql) && Rewrap(sql).Some?
    ensures LiveWords(Rewrap(sql).value, false) == FlatMap(LiveOnECC, LinesOf(sql))
  {
    WrappedLinesHaveNoBreak(sql);
    LiveWordsOfJoin(WrapAll(LinesOf(sql)), false);
    LinesKeepLiveWordsOnECC(LinesOf(sql));
  }

  /** On the S/4 reading: exactly when no long line is an indented comment of several lines. */
  lemma StatementKeepsLiveWordsOnS4Exactly(sql: string)
    requires HasLongLine(sql) && Rewrap(sql).Some?
    ensures LiveWords(Rewrap(sql).value, true) == FlatMap(LiveOnS4, LinesOf(sql)) <==> NoCommentBreaks(LinesOf(sql))
  {
    WrappedLinesHaveNoBreak(sql);
    LiveWordsOfJoin(WrapAll(LinesOf(sql)), true);
    LinesKeepLiveWordsOnS4Exactly(LinesOf(sql));
  }
}
