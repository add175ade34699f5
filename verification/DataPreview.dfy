/** Handing a statement to the data preview (adt/query.go: RunQuery), up to the request it sends. */
module DataPreview {
  import opened Text
  import opened QueryWrap
  import opened Wrappers

  /** What goes to the data preview: the statement, and how many rows are asked for. */
  datatype PreviewRequest = PreviewRequest(text: string, rows: nat)

  datatype Submission =
    | Sent(request: PreviewRequest)
    | EmptyStatement
    | NotASelect
    | HoldsSemicolon
    | CannotWrap(cause: TextResult)

  const DEFAULT_ROWS := 1000

  predicate StartsWithSelect(sql: string) { "SELECT" <= Upper(sql) }

  /** validateSelectOnly, on a trimmed statement. */
  predicate IsSingleSelect(sql: string) { StartsWithSelect(sql) && ';' !in sql }

  /** The request, if one is sent. */
  function Submitted(sql: string, maxRows: int): Option<PreviewRequest> {
    var trimmed := TrimSpace(sql);
    if !IsSingleSelect(trimmed) || Rewrap(trimmed).None? then None
    else Some(PreviewRequest(Rewrap(trimmed).value, if maxRows <= 0 then DEFAULT_ROWS else maxRows))
  }

  /** RunQuery, up to the request. Each refusal has its own reason, checked in this order. */
  method RunQuery(sql: string, maxRows: int) returns (r: Submission)
    ensures if Submitted(sql, maxRows).Some? then r == Sent(Submitted(sql, maxRows).value) else !r.Sent?
    ensures var trimmed := TrimSpace(sql);
            && (r == EmptyStatement <==> trimmed == "")
            && (r == NotASelect <==> trimmed != "" && !StartsWithSelect(trimmed))
            && (r == HoldsSemicolon <==> StartsWithSelect(trimmed) && ';' in trimmed)
            && (r.CannotWrap? <==> IsSingleSelect(trimmed) && Rewrap(trimmed).None?)
            && (r.CannotWrap? ==> NamesFirstUnwrappable(r.cause, LinesOf(trimmed)))
  {
    var trimmed := TrimSpace(sql);
    if trimmed == "" {
      return EmptyStatement;
    }
    if !("SELECT" <= Upper(trimmed)) {
      return NotASelect;
    }
    if ';' in trimmed {
      return HoldsSemicolon;
    }
    var wrapped := WrapLongSQLLines(trimmed);
    if wrapped.Unwrappable? {
      return CannotWrap(wrapped);
    }
    return Sent(PreviewRequest(wrapped.sql, if maxRows <= 0 then DEFAULT_ROWS else maxRows));
  }

  /** The row limit, which is 1000 unless one is given. */
  lemma {:induction false} RowLimit(sql: string, maxRows: int)
    requires Submitted(sql, maxRows).Some?
    ensures Submitted(sql, maxRows).value.rows == if maxRows > 0 then maxRows else 1000
  {
    assert DEFAULT_ROWS == 1000;
  }

  // ---------------------------------------------------------------------------
  // What the data preview gets
  // ---------------------------------------------------------------------------

  /** No line is longer than the data preview takes. */
  lemma SentHasNoLongLine(sql: string, maxRows: int)
    requires Submitted(sql, maxRows).Some?
    ensures !HasLongLine(Submitted(sql, maxRows).value.text)
  {
    RewrapLeavesNoLongLine(TrimSpace(sql));
  }

  lemma {:induction false} UpperAppend(a: string, b: string)
    ensures Upper(a + b) == Upper(a) + Upper(b)
  {
    if a == "" {
      assert a + b == b;
    } else {
      UpperAppend(a[1..], b);
      assert (a + b)[1..] == a[1..] + b;
    }
  }

  lemma {:induction false} UpperSelect()
    ensures Upper("SELECT") == "SELECT"
  {
    UpperAppend("SEL", "ECT");
    assert "SELECT" == "SEL" + "ECT";
    assert Upper("SEL") == "SEL" && Upper("ECT") == "ECT";
  }

  /** A statement that begins with the keyword, ends in no space and has no semicolon is a single SELECT. */
  lemma {:induction false} SelectIsSubmitted(rest: string)
    requires rest != "" && !IsSpace(rest[|rest| - 1])
    ensures var sql := "SELECT" + rest;
            TrimSpace(sql) == sql && StartsWithSelect(sql) && (IsSingleSelect(sql) <==> ';' !in rest)
  {
    UpperSelect();
    KeywordBegins("SELECT", rest);
    assert ';' !in "SELECT";
  }

  lemma {:induction false} KeywordBegins(word: string, rest: string)
    requires word != "" && !IsSpace(word[0]) && Upper(word) == word
    requires rest != "" && !IsSpace(rest[|rest| - 1])
    ensures TrimSpace(word + rest) == word + rest && word <= Upper(word + rest)
    ensures ';' in word + rest <==> ';' in word || ';' in rest
  {
    var sql := word + rest;
    assert sql[0] == word[0] && sql[|sql| - 1] == rest[|rest| - 1];
    NothingToTrim(sql);
    UpperAppend(word, rest);
  }

  /** A line that no reading takes for a comment. */
  predicate BeginsLive(line: string) { line != "" && !IsBlank(line[0]) && line[0] != '*' }

  lemma LiveLine(line: string, s4: bool)
    requires BeginsLive(line)
    ensures FlatMap(Reader(s4), WrappedOrKept(line)) == Reader(s4)(line) == Lex(line).words
  {
    FlatMapOne(Reader(s4), line);
    WrapKeepsLiveWordsOnECC(line);
    WrapKeepsLiveWordsOnS4Exactly(line);
  }

  /** A statement of one line is sent unless it is long and cannot be wrapped, and then all its
      words are live, on either reading. */
  lemma OneLineIsRewrapped(sql: string, s4: bool)
    requires BeginsLive(sql) && '\n' !in sql && TrimSuffixCR(sql) == sql
    ensures Rewrap(sql).Some? <==> Fits(sql) || AllFit(Wrapped(sql))
    ensures Rewrap(sql).Some? ==> LiveWords(Rewrap(sql).value, s4) == Lex(sql).words
  {
    SplitSingle(sql, '\n');
    TrimSuffixCRsAt([sql]);
    assert LinesOf(sql) == [sql];
    FlatMapOne(WrappedOrKept, sql);
    FlatMapOne(Reader(s4), sql);
    LiveLine(sql, s4);
    assert HasLongLine(sql) <==> !Fits(sql) by {
      assert sql in Split(sql, '\n');
    }
    if HasLongLine(sql) && Rewrap(sql).Some? {
      WrappedLinesHaveNoBreak(sql);
      LiveWordsOfJoin(WrapAll(LinesOf(sql)), s4);
    }
  }

  /** A statement of several lines: the live words begin with the words of the first line, which
      may lose a carriage return. */
  lemma FirstLineIsRewrapped(line: string, rest: string, s4: bool)
    requires BeginsLive(line) && BeginsLive(TrimSuffixCR(line)) && '\n' !in line
    requires Rewrap(line + "\n" + rest).Some?
    ensures var ws := LiveWords(Rewrap(line + "\n" + rest).value, s4);
            Lex(line).words <= ws || Lex(TrimSuffixCR(line)).words <= ws
  {
    var sql := line + "\n" + rest;
    SplitPrefix(line, rest, '\n');
    if HasLongLine(sql) {
      var first := TrimSuffixCR(line);
      WrappedLinesHaveNoBreak(sql);
      LiveWordsOfJoin(WrapAll(LinesOf(sql)), s4);
      assert ([line] + Split(rest, '\n'))[1..] == Split(rest, '\n');
      assert LinesOf(sql) == [first] + TrimSuffixCRs(Split(rest, '\n'));
      FlatMapCons(WrappedOrKept, first, TrimSuffixCRs(Split(rest, '\n')));
      FlatMapAppend(Reader(s4), WrappedOrKept(first), WrapAll(TrimSuffixCRs(Split(rest, '\n'))));
      LiveLine(first, s4);
    } else {
      FlatMapCons(Reader(s4), line, Split(rest, '\n'));
      LiveLine(line, s4);
    }
  }

  /** A statement for which the S/4 reading changes: a comment that starts after a blank and needs
      two lines. Its second line becomes live SQL. */
  lemma {:induction false} CommentBecomesSql(select: string, a: string)
    requires select == "SELECT a FROM t" && |a| == 200 && forall i | 0 <= i < 200 :: a[i] == 'a'
    ensures var head, tail := " *" + a, " " + a;
            var sql := select + "\n" + (head + tail);
            && Submitted(sql, 1) == Some(PreviewRequest(select + "\n" + head + "\n" + tail, 1))
            && LiveWords(sql, true) == ["SELECT", "a", "FROM", "t"]
            && LiveWords(Submitted(sql, 1).value.text, true) == ["SELECT", "a", "FROM", "t", a]
  {
    CommentOfTwoLines(a);
    SelectLine(select);
    CommentChars(a);
    WrappedComment(select, " *" + a, " " + a);
    assert ["SELECT", "a", "FROM", "t"] + ([] + [a]) == ["SELECT", "a", "FROM", "t", a];
  }

  lemma {:induction false} CommentChars(a: string)
    requires |a| == 200 && forall i | 0 <= i < 200 :: a[i] == 'a'
    ensures var head, tail := " *" + a, " " + a;
            && '\n' !in head && '\n' !in tail && ';' !in head && ';' !in tail
            && |tail| > 0 && !IsSpace(tail[|tail| - 1]) && Fits(head) && Fits(tail)
  {}

  lemma {:induction false} WrappedComment(select: string, head: string, tail: string)
    requires "SELECT" <= select && '\n' !in select && Fits(select) && TrimSuffixCR(select) == select
    requires |tail| > 0 && !IsSpace(tail[|tail| - 1]) && '\n' !in head && '\n' !in tail && Fits(head) && Fits(tail)
    requires ';' !in select && ';' !in head && ';' !in tail && !Fits(head + tail)
             && Wrapped(head + tail) == [head, tail]
    ensures var sql := select + "\n" + (head + tail);
            && Submitted(sql, 1) == Some(PreviewRequest(select + "\n" + head + "\n" + tail, 1))
            && LiveWords(sql, true) == LiveOnS4(select) + LiveOnS4(head + tail)
            && LiveWords(Submitted(sql, 1).value.text, true) == LiveOnS4(select) + (LiveOnS4(head) + LiveOnS4(tail))
  {
    var comment := head + tail;
    assert comment[|comment| - 1] == tail[|tail| - 1];
    assert TrimSuffixCR(comment) == comment;
    BeginsWithSelect(select, comment);
    CommentLines(select + "\n" + comment, select, comment, head, tail);
    JoinThree(select, head, tail, "\n");
  }

  lemma {:induction false} SelectLine(select: string)
    requires select == "SELECT a FROM t"
    ensures "SELECT" <= select && ';' !in select && '\n' !in select && Fits(select) && TrimSuffixCR(select) == select
    ensures LiveOnS4(select) == ["SELECT", "a", "FROM", "t"]
  {
    WordsOfSelect();
  }

  lemma {:induction false} BeginsWithSelect(select: string, comment: string)
    requires "SELECT" <= select && comment != "" && !IsSpace(comment[|comment| - 1]) && ';' !in select
             && ';' !in comment
    ensures TrimSpace(select + "\n" + comment) == select + "\n" + comment && IsSingleSelect(select + "\n" + comment)
  {
    var rest := select[6..] + "\n" + comment;
    assert select + "\n" + comment == "SELECT" + rest;
    SelectIsSubmitted(rest);
  }

  lemma {:induction false} LinesOfTwo(a: string, b: string)
    requires '\n' !in a && '\n' !in b && TrimSuffixCR(a) == a && TrimSuffixCR(b) == b
    ensures Split(a + "\n" + b, '\n') == LinesOf(a + "\n" + b) == [a, b]
  {
    SplitPrefix(a, b, '\n');
    SplitSingle(b, '\n');
    var ls := [a, b];
    assert [a] + [b] == ls;
    TrimSuffixCRsAt(ls);
    assert TrimSuffixCRs(ls)[0] == a && TrimSuffixCRs(ls)[1] == b;
  }

  /** A statement of two lines, the second of which is wrapped into two. */
  lemma {:induction false} CommentLines(sql: string, select: string, comment: string, head: string, tail: string)
    requires sql == select + "\n" + comment && '\n' !in select && '\n' !in comment && Fits(select) && !Fits(comment)
    requires TrimSuffixCR(select) == select && TrimSuffixCR(comment) == comment
    requires Wrapped(comment) == [head, tail] && Fits(head) && Fits(tail) && '\n' !in head && '\n' !in tail
    ensures Rewrap(sql) == Some(Join([select, head, tail], "\n"))
    ensures LiveWords(sql, true) == LiveOnS4(select) + LiveOnS4(comment)
    ensures LiveWords(Rewrap(sql).value, true) == LiveOnS4(select) + (LiveOnS4(head) + LiveOnS4(tail))
  {
    LinesOfTwo(select, comment);
    SecondIsWrapped(sql, select, comment, head, tail);
    FlatMapTwo(LiveOnS4, select, comment);
    LiveWordsOfThree(select, head, tail);
  }

  lemma {:induction false} SecondIsWrapped(sql: string, select: string, comment: string, head: string, tail: string)
    requires Split(sql, '\n') == LinesOf(sql) == [select, comment] && Fits(select) && !Fits(comment)
    requires Wrapped(comment) == [head, tail] && Fits(head) && Fits(tail) && TrimSuffixCR(comment) == comment
    ensures Rewrap(sql) == Some(Join([select, head, tail], "\n"))
  {
    assert Split(sql, '\n')[1] == comment;
    FlatMapTwo(WrappedOrKept, select, comment);
    assert WrapAll(LinesOf(sql)) == [select, head, tail];
  }

  lemma {:induction false} LiveWordsOfThree(a: string, b: string, c: string)
    requires '\n' !in a && '\n' !in b && '\n' !in c
    ensures LiveWords(Join([a, b, c], "\n"), true) == LiveOnS4(a) + (LiveOnS4(b) + LiveOnS4(c))
  {
    LiveWordsOfJoin([a, b, c], true);
    assert [a] + [b, c] == [a, b, c];
    FlatMapCons(LiveOnS4, a, [b, c]);
    FlatMapTwo(LiveOnS4, b, c);
  }

  lemma {:induction false} WordsOfSelect()
    ensures LiveOnS4("SELECT a FROM t") == ["SELECT", "a", "FROM", "t"]
  {
    var ws := ["SELECT", "a", "FROM", "t"];
    assert ws == ["SELECT"] + (["a"] + (["FROM"] + ["t"]));
    JoinCons("FROM", ["t"], " ");
    JoinCons("a", ["FROM"] + ["t"], " ");
    JoinCons("SELECT", ["a"] + (["FROM"] + ["t"]), " ");
    assert Join(ws, " ") == "SELECT a FROM t";
    forall i | 0 <= i < |ws| ensures Solid(Code, ws[i]) && After(Code, ws[i]) == Code {
      LettersAreSolid(ws[i]);
    }
    LexOfJoin(ws, false);
    assert TrimLeftBlanks("SELECT a FROM t") == "SELECT a FROM t";
  }

  lemma {:induction false} LettersAreSolid(w: string)
    requires forall i | 0 <= i < |w| :: 'A' <= w[i] <= 'Z' || 'a' <= w[i] <= 'z'
    ensures Solid(Code, w) && After(Code, w) == Code
  {
    if w != "" {
      assert w[0] != '\'' && w[0] != '`' && w[0] != '|';
      LettersAreSolid(w[1..]);
    }
  }
}
