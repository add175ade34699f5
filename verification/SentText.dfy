/** Statements as words: which characters they carry, and when a one-line statement is sent. */
module SentText {
  import opened Text
  import opened QueryWrap
  import opened AbapSql
  import opened DataPreview

  // ---------------------------------------------------------------------------
  // Which values a condition carries
  // ---------------------------------------------------------------------------

  predicate InTerm(t: seq<Cmp>, c: char) { exists i :: 0 <= i < |t| && c in t[i].value }

  /** Some value of the condition holds the character. */
  predicate InCondition(cond: Condition, c: char) { exists i :: 0 <= i < |cond| && InTerm(cond[i], c) }

  predicate InWords(ws: seq<string>, c: char) { exists i :: 0 <= i < |ws| && c in ws[i] }

  /** The characters that make or break a statement, and are in no name. */
  predicate IsBreaker(c: char) { c == ';' || c == '\n' }

  lemma InWordsAppend(a: seq<string>, b: seq<string>, c: char)
    ensures InWords(a + b, c) <==> InWords(a, c) || InWords(b, c)
  {
    var ws := a + b;
    if i :| 0 <= i < |a| && c in a[i] { assert c in ws[i]; }
    if i :| 0 <= i < |b| && c in b[i] { assert c in ws[|a| + i]; }
    if i :| 0 <= i < |ws| && c in ws[i] { assert if i < |a| then c in a[i] else c in b[i - |a|]; }
  }

  lemma InWordsOne(w: string, c: char)
    ensures InWords([w], c) <==> c in w
  {
    assert [w][0] == w;
  }

  lemma {:induction false} InJoin(ws: seq<string>, c: char)
    requires c != ' '
    ensures c in Join(ws, " ") <==> InWords(ws, c)
  {
    if |ws| == 1 {
      InWordsOne(ws[0], c);
      assert ws == [ws[0]];
    } else if |ws| > 1 {
      InJoin(ws[1..], c);
      InWordsAppend([ws[0]], ws[1..], c);
      InWordsOne(ws[0], c);
      assert ws == [ws[0]] + ws[1..];
    }
  }

  lemma {:induction false} InEscaped(v: string, c: char)
    requires c != '\''
    ensures c in EscapeValue(v) <==> c in v
  {
    if v != "" {
      InEscaped(v[1..], c);
      assert v == [v[0]] + v[1..];
    }
  }

  lemma NameHasNoBreaker(name: string, c: char)
    requires IsIdentifier(name) && IsBreaker(c)
    ensures c !in name
  {}

  lemma InCmpWords(x: Cmp, c: char)
    requires IsIdentifier(x.column) && IsBreaker(c)
    ensures InWords(CmpWords(x), c) <==> c in x.value
  {
    NameHasNoBreaker(x.column, c);
    InEscaped(x.value, c);
    InOperandWords(x.column, x.cast, c);
    var pair := [OpText(x.op), Literal(x.value)];
    assert c !in OpText(x.op) && (c in Literal(x.value) <==> c in x.value);
    InWordsAppend([OpText(x.op)], [Literal(x.value)], c);
    InWordsOne(OpText(x.op), c);
    InWordsOne(Literal(x.value), c);
    assert pair == [OpText(x.op)] + [Literal(x.value)];
    InWordsAppend(OperandWords(x.column, x.cast), pair, c);
  }

  lemma InOperandWords(column: string, cast: bool, c: char)
    requires c !in column && IsBreaker(c)
    ensures !InWords(OperandWords(column, cast), c)
  {
    assert c !in "CAST(" && c !in "AS" && c !in "CHAR(" && c !in "6" && c !in ")";
  }

  lemma InTermCons(x: Cmp, t: seq<Cmp>, c: char)
    ensures InTerm([x] + t, c) <==> c in x.value || InTerm(t, c)
  {
    var all := [x] + t;
    assert all[0] == x && forall i | 0 < i < |all| :: all[i] == t[i - 1];
    if i :| 0 <= i < |t| && c in t[i].value { assert c in all[i + 1].value; }
    if c in x.value { assert c in all[0].value; }
  }

  lemma {:induction false} InAndWords(t: seq<Cmp>, c: char)
    requires ValidTerm(t) && IsBreaker(c)
    ensures InWords(AndWords(t), c) <==> InTerm(t, c)
  {
    if t != [] {
      var rest := if |t| == 1 then [] else ["AND"] + AndWords(t[1..]);
      InCmpWords(t[0], c);
      InAndWords(t[1..], c);
      InWordsOne("AND", c);
      InWordsAppend(["AND"], AndWords(t[1..]), c);
      InWordsAppend(CmpWords(t[0]), rest, c);
      InTermCons(t[0], t[1..], c);
      assert t == [t[0]] + t[1..] && c !in "AND";
    }
  }

  lemma InTermWords(t: seq<Cmp>, c: char)
    requires t != [] && ValidTerm(t) && IsBreaker(c)
    ensures InWords(TermWords(t), c) <==> InTerm(t, c)
  {
    if |t| == 1 {
      InCmpWords(t[0], c);
    } else {
      InAndWords(t, c);
      assert c !in "(" && c !in ")";
      InWordsOne("(", c);
      InWordsOne(")", c);
      InWordsAppend(["("], AndWords(t), c);
      InWordsAppend(["("] + AndWords(t), [")"], c);
    }
  }

  lemma InConditionCons(t: seq<Cmp>, cond: Condition, c: char)
    ensures InCondition([t] + cond, c) <==> InTerm(t, c) || InCondition(cond, c)
  {
    var all := [t] + cond;
    assert all[0] == t && forall i | 0 < i < |all| :: all[i] == cond[i - 1];
    if i :| 0 <= i < |cond| && InTerm(cond[i], c) { assert InTerm(all[i + 1], c); }
    if InTerm(t, c) { assert InTerm(all[0], c); }
  }

  lemma {:induction false} InConditionWords(cond: Condition, c: char)
    requires (forall i | 0 <= i < |cond| :: cond[i] != [] && ValidTerm(cond[i])) && IsBreaker(c)
    ensures InWords(ConditionWords(cond), c) <==> InCondition(cond, c)
  {
    if cond != [] {
      var rest := if |cond| == 1 then [] else ["OR"] + ConditionWords(cond[1..]);
      InTermWords(cond[0], c);
      InConditionWords(cond[1..], c);
      InWordsOne("OR", c);
      InWordsAppend(["OR"], ConditionWords(cond[1..]), c);
      InWordsAppend(TermWords(cond[0]), rest, c);
      InConditionCons(cond[0], cond[1..], c);
      assert cond == [cond[0]] + cond[1..] && c !in "OR";
    }
  }

  // ---------------------------------------------------------------------------
  // The shape of the words
  // ---------------------------------------------------------------------------

  ghost predicate IsLiteral(w: string) { exists v :: w == Literal(v) }

  /** No word but a literal holds a line break; none starts with '*' or ends in a space. */
  ghost predicate IsSound(w: string) {
    w != "" && !Starred(w) && !IsSpace(w[|w| - 1]) && (IsLiteral(w) || '\n' !in w)
  }

  ghost predicate AllSound(ws: seq<string>) { forall i | 0 <= i < |ws| :: IsSound(ws[i]) }

  lemma SoundAppend(a: seq<string>, b: seq<string>)
    requires AllSound(a) && AllSound(b)
    ensures AllSound(a + b)
  {}

  lemma NameIsSound(name: string)
    requires IsIdentifier(name)
    ensures IsSound(name) && IsSound(name + ",")
  {
    NameHasNoBreaker(name, '\n');
    assert IsIdentifierChar(name[0]) && IsIdentifierChar(name[|name| - 1]);
  }

  lemma CmpWordsSound(x: Cmp)
    requires IsIdentifier(x.column)
    ensures AllSound(CmpWords(x))
  {
    NameIsSound(x.column);
    assert IsSound("CAST(") && IsSound("AS") && IsSound("CHAR(") && IsSound("6") && IsSound(")");
    assert IsSound(OpText(x.op)) && IsSound(Literal(x.value));
    SoundAppend(OperandWords(x.column, x.cast), [OpText(x.op), Literal(x.value)]);
  }

  lemma {:induction false} AndWordsSound(t: seq<Cmp>)
    requires ValidTerm(t)
    ensures AllSound(AndWords(t))
  {
    if t != [] {
      CmpWordsSound(t[0]);
      AndWordsSound(t[1..]);
      assert IsSound("AND");
    }
  }

  lemma TermWordsSound(t: seq<Cmp>)
    requires t != [] && ValidTerm(t)
    ensures AllSound(TermWords(t))
  {
    if |t| == 1 {
      CmpWordsSound(t[0]);
    } else {
      AndWordsSound(t);
      assert IsSound("(") && IsSound(")");
    }
  }

  lemma {:induction false} ConditionWordsSound(cond: Condition)
    requires forall i | 0 <= i < |cond| :: cond[i] != [] && ValidTerm(cond[i])
    ensures AllSound(ConditionWords(cond))
  {
    if cond != [] {
      TermWordsSound(cond[0]);
      ConditionWordsSound(cond[1..]);
      assert IsSound("OR");
    }
  }

  // ---------------------------------------------------------------------------
  // When a statement of one line is sent
  // ---------------------------------------------------------------------------

  lemma {:induction false} JoinEnds(ws: seq<string>)
    requires ws != [] && ws[|ws| - 1] != ""
    ensures var s, w := Join(ws, " "), ws[|ws| - 1];
            s != "" && s[|s| - 1] == w[|w| - 1]
  {
    if |ws| > 1 {
      JoinEnds(ws[1..]);
    }
  }

  /** The longest word the data preview takes, behind the blank of a continuation line. */
  const MAX_WORD := DATA_PREVIEW_MAX_LINE - 1

  predicate WordsFit(ws: seq<string>) { forall i | 0 <= i < |ws| :: |ws[i]| <= MAX_WORD }

  lemma OneLineIsSent(sql: string, ws: seq<string>, rows: nat, s4: bool)
    requires TrimSpace(sql) == sql && IsSingleSelect(sql) && BeginsLive(sql) && TrimSuffixCR(sql) == sql && '\n' !in sql
    requires Lex(sql) == Lexed(ws, false) && (AllFit(Wrapped(sql)) <==> WordsFit(ws)) && rows > 0
    ensures Submitted(sql, rows).Some? <==> Fits(sql) || WordsFit(ws)
    ensures Submitted(sql, rows).Some? ==>
              Submitted(sql, rows).value.rows == rows && LiveWords(Submitted(sql, rows).value.text, s4) == ws
  {
    OneLineIsRewrapped(sql, s4);
  }
}
