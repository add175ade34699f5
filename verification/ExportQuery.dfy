/** The export's statement on its way to the data preview (adt/abapsql.go, adt/query.go).

    A reader of whole statements says what the data preview takes a text to mean. The module proves
    which statements arrive: what RunQuery sends of them is read back as the query that was meant. */
module ExportQuery {
  import opened Text
  import opened QueryWrap
  import opened AbapSql
  import opened DataPreview
  import opened SentText
  import opened Wrappers

  // ---------------------------------------------------------------------------
  // Reading a statement
  // ---------------------------------------------------------------------------

  datatype Select = Select(table: string, where: Condition, orderBy: seq<string>)

  /** A name with the comma behind it. */
  function ReadListed(w: string): Option<string> {
    if |w| > 0 && w[|w| - 1] == ',' && IsIdentifier(w[..|w| - 1]) then Some(w[..|w| - 1]) else None
  }

  function ReadNames(ws: seq<string>): Option<seq<string>> {
    if ws == [] then None
    else if |ws| == 1 then (if IsIdentifier(ws[0]) then Some(ws) else None)
    else match ReadListed(ws[0])
    case None => None
    case Some(name) => match ReadNames(ws[1..]) case None => None case Some(names) => Some([name] + names)
  }

  function ReadOrderBy(ws: seq<string>): Option<seq<string>> {
    if ws == [] then Some([]) else if |ws| < 2 || ws[0] != "ORDER" || ws[1] != "BY" then None else ReadNames(ws[2..])
  }

  function ReadWhere(ws: seq<string>): Option<(Condition, seq<string>)> {
    if ws == [] || ws[0] != "WHERE" then Some(([], ws)) else ReadCondition(ws[1..])
  }

  function ReadSelect(ws: seq<string>): Option<Select> {
    if |ws| < 4 || ws[..3] != ["SELECT", "*", "FROM"] || !IsIdentifier(ws[3]) then None
    else match ReadWhere(ws[4..])
    case None => None
    case Some((where, rest)) =>
      match ReadOrderBy(rest) case None => None case Some(keys) => Some(Select(ws[3], where, keys))
  }

  // ---------------------------------------------------------------------------
  // The statement's words read back
  // ---------------------------------------------------------------------------

  lemma {:induction false} ReadNamesBack(keys: seq<string>)
    requires keys != [] && AllIdentifiers(keys)
    ensures ReadNames(OrderWords(keys)) == Some(keys)
  {
    assert keys[0] in keys;
    if |keys| > 1 {
      ReadNamesBack(keys[1..]);
      var w := keys[0] + ",";
      assert w[..|w| - 1] == keys[0];
      assert OrderWords(keys[1..]) != [];
      assert ([w] + OrderWords(keys[1..]))[1..] == OrderWords(keys[1..]);
      assert [keys[0]] + keys[1..] == keys;
    }
  }

  lemma ReadOrderByBack(keys: seq<string>)
    requires AllIdentifiers(keys)
    ensures ReadOrderBy(OrderByWords(keys)) == Some(keys)
  {
    if keys != [] {
      ReadNamesBack(keys);
      assert (["ORDER", "BY"] + OrderWords(keys))[2..] == OrderWords(keys);
    }
  }

  lemma OrderIsNoOther()
    ensures "ORDER" != "WHERE" && "ORDER" != "OR"
  {
    assert "ORDER"[0] != "WHERE"[0] && |"ORDER"| != |"OR"|;
  }

  lemma ReadWhereBack(cond: Condition, tail: seq<string>)
    requires cond == [] || ValidCondition(cond)
    requires tail == [] || tail[0] == "ORDER"
    ensures ReadWhere(WhereWords(cond) + tail) == Some((cond, tail))
  {
    OrderIsNoOther();
    if cond == [] {
      assert WhereWords(cond) + tail == tail;
    } else {
      ReadConditionBack(cond, tail);
      ReadWhereClause(ConditionWords(cond), tail, cond);
    }
  }

  lemma ReadWhereClause(words: seq<string>, tail: seq<string>, cond: Condition)
    requires ReadCondition(words + tail) == Some((cond, tail))
    ensures ReadWhere(["WHERE"] + words + tail) == Some((cond, tail))
  {
    var ws := ["WHERE"] + words + tail;
    assert ws == ["WHERE"] + (words + tail) && ws[0] == "WHERE";
    ReadWhereStep(ws, words + tail, cond, tail);
  }

  lemma ReadWhereStep(ws: seq<string>, rest: seq<string>, cond: Condition, tail: seq<string>)
    requires ws == ["WHERE"] + rest && ReadCondition(rest) == Some((cond, tail))
    ensures ReadWhere(ws) == Some((cond, tail))
  {
    assert ws[1..] == rest;
  }

  lemma ReadClauses(head: seq<string>, middle: seq<string>, tail: seq<string>, cond: Condition, keys: seq<string>)
    requires |head| == 4 && head[..3] == ["SELECT", "*", "FROM"] && IsIdentifier(head[3])
    requires ReadWhere(middle + tail) == Some((cond, tail)) && ReadOrderBy(tail) == Some(keys)
    ensures ReadSelect(head + middle + tail) == Some(Select(head[3], cond, keys))
  {
    var ws := head + middle + tail;
    assert ws[..3] == head[..3] && ws[3] == head[3] && ws[4..] == middle + tail;
  }

  /** The words of a statement are read as the query that was meant. */
  lemma ReadSelectBack(table: string, keys: seq<string>, cond: Condition)
    requires IsIdentifier(table) && AllIdentifiers(keys) && (cond == [] || ValidCondition(cond))
    ensures ReadSelect(StatementWords(table, keys, cond)) == Some(Select(table, cond, keys))
  {
    var head := ["SELECT", "*", "FROM", table];
    assert head[..3] == ["SELECT", "*", "FROM"];
    ReadWhereBack(cond, OrderByWords(keys));
    ReadOrderByBack(keys);
    ReadClauses(head, WhereWords(cond), OrderByWords(keys), cond, keys);
  }

  // ---------------------------------------------------------------------------
  // A literal cut by a line break is never read
  // ---------------------------------------------------------------------------

  /** A word that is no literal, or a complete one. */
  predicate Whole(w: string) { w == "" || w[0] != '\'' || ReadWord(w).Some? }

  predicate AllWhole(ws: seq<string>) { forall i | 0 <= i < |ws| :: Whole(ws[i]) }

  /** rest is what is left of ws after some whole words. */
  predicate Reads(ws: seq<string>, rest: seq<string>) {
    |rest| <= |ws| && ws[|ws| - |rest|..] == rest && AllWhole(ws[..|ws| - |rest|])
  }

  lemma ReadsOn(a: seq<string>, b: seq<string>, c: seq<string>)
    requires Reads(a, b) && Reads(b, c)
    ensures Reads(a, c)
  {
    var m, n := |a| - |b|, |b| - |c|;
    assert b == a[m..] && a[|a| - |c|..] == b[n..];
    assert a[..m + n] == a[..m] + b[..n];
  }

  lemma ReadsOne(w: string, rest: seq<string>)
    requires Whole(w)
    ensures Reads([w] + rest, rest)
  {
    assert ([w] + rest)[1..] == rest && ([w] + rest)[..1] == [w];
  }

  lemma IdentifierIsWhole(w: string)
    requires IsIdentifier(w)
    ensures Whole(w)
  {
    assert IsIdentifierChar(w[0]);
  }

  lemma ReadOperandWhole(ws: seq<string>)
    requires ReadOperand(ws).Some?
    ensures Reads(ws, ReadOperand(ws).value.2)
  {
    if |ws| >= 7 && ws[0] == "CAST(" && IsIdentifier(ws[1]) && ws[2..7] == ["AS", "CHAR(", "6", ")", ")"] {
      IdentifierIsWhole(ws[1]);
      assert ws[..7] == [ws[0], ws[1]] + ws[2..7];
    } else {
      IdentifierIsWhole(ws[0]);
      assert ws[..1] == [ws[0]];
    }
  }

  lemma ReadCmpWhole(ws: seq<string>)
    requires ReadCmp(ws).Some?
    ensures Reads(ws, ReadCmp(ws).value.1)
  {
    ReadOperandWhole(ws);
    var rest := ReadOperand(ws).value.2;
    assert rest[..2] == [rest[0], rest[1]];
    ReadsOn(ws, rest, rest[2..]);
  }

  lemma {:induction false} ReadAndWhole(ws: seq<string>)
    requires ReadAnd(ws).Some?
    ensures Reads(ws, ReadAnd(ws).value.1)
    decreases |ws|
  {
    ReadCmpWhole(ws);
    var rest := ReadCmp(ws).value.1;
    if rest != [] && rest[0] == "AND" {
      ReadAndWhole(rest[1..]);
      ReadsOne(rest[0], rest[1..]);
      assert rest == [rest[0]] + rest[1..];
      ReadsOn(ws, rest, rest[1..]);
      ReadsOn(ws, rest[1..], ReadAnd(rest[1..]).value.1);
    }
  }

  lemma ReadTermWhole(ws: seq<string>)
    requires ReadTerm(ws).Some?
    ensures Reads(ws, ReadTerm(ws).value.1)
  {
    if ws != [] && ws[0] == "(" {
      ReadAndWhole(ws[1..]);
      var rest := ReadAnd(ws[1..]).value.1;
      ReadsOne(ws[0], ws[1..]);
      ReadsOne(rest[0], rest[1..]);
      assert ws == [ws[0]] + ws[1..] && rest == [rest[0]] + rest[1..];
      ReadsOn(ws, ws[1..], rest);
      ReadsOn(ws, rest, rest[1..]);
    } else {
      ReadCmpWhole(ws);
    }
  }

  lemma {:induction false} ReadConditionWhole(ws: seq<string>)
    requires ReadCondition(ws).Some?
    ensures Reads(ws, ReadCondition(ws).value.1)
    decreases |ws|
  {
    ReadTermWhole(ws);
    var rest := ReadTerm(ws).value.1;
    if rest != [] && rest[0] == "OR" {
      ReadConditionWhole(rest[1..]);
      ReadsOne(rest[0], rest[1..]);
      assert rest == [rest[0]] + rest[1..];
      ReadsOn(ws, rest, rest[1..]);
      ReadsOn(ws, rest[1..], ReadCondition(rest[1..]).value.1);
    }
  }

  lemma {:induction false} ReadNamesWhole(ws: seq<string>)
    requires ReadNames(ws).Some?
    ensures AllWhole(ws)
  {
    if |ws| == 1 {
      IdentifierIsWhole(ws[0]);
    } else {
      ReadNamesWhole(ws[1..]);
      var name := ws[0][..|ws[0]| - 1];
      assert IsIdentifierChar(name[0]) && ws[0][0] == name[0];
      assert ws == [ws[0]] + ws[1..];
    }
  }

  lemma ReadOrderByWhole(ws: seq<string>)
    requires ReadOrderBy(ws).Some?
    ensures AllWhole(ws)
  {
    if ws != [] {
      ReadNamesWhole(ws[2..]);
      assert ws == [ws[0], ws[1]] + ws[2..];
    }
  }

  lemma ReadSelectWhole(ws: seq<string>)
    requires ReadSelect(ws).Some?
    ensures AllWhole(ws)
  {
    var tail := ws[4..];
    var rest := ReadWhere(tail).value.1;
    ReadWhereWhole(tail);
    ReadOrderByWhole(rest);
    IdentifierIsWhole(ws[3]);
    WholeParts(ws, rest);
  }

  lemma ReadWhereWhole(ws: seq<string>)
    requires ReadWhere(ws).Some?
    ensures Reads(ws, ReadWhere(ws).value.1)
  {
    if ws != [] && ws[0] == "WHERE" {
      ReadConditionWhole(ws[1..]);
      ReadsOne(ws[0], ws[1..]);
      assert ws == [ws[0]] + ws[1..];
      ReadsOn(ws, ws[1..], ReadCondition(ws[1..]).value.1);
    }
  }

  lemma WholeParts(ws: seq<string>, rest: seq<string>)
    requires |ws| >= 4 && Reads(ws[4..], rest) && AllWhole(rest) && Whole(ws[3]) && ws[..3] == ["SELECT", "*", "FROM"]
    ensures AllWhole(ws)
  {
    var tail := ws[4..];
    var n := |tail| - |rest|;
    forall i | 0 <= i < |ws| ensures Whole(ws[i]) {
      if i < 3 {
        assert ws[i] == ws[..3][i];
      } else if i >= 4 + n {
        assert ws[i] == tail[i - 4] == rest[i - 4 - n];
      } else if i >= 4 {
        assert ws[i] == tail[..n][i - 4];
      }
    }
  }

  /** The beginning of a literal that is cut off inside its value is no word a reader takes. */
  lemma CutLiteralIsNotWhole(v: string)
    ensures var w := "'" + EscapeValue(v);
            !Whole(w) && w != "" && Solid(Code, w) && After(Code, w) == Quoted('\'')
  {
    var w := "'" + EscapeValue(v);
    assert w[1..] == EscapeValue(v);
    NeverClosed(v);
  }

  lemma {:induction false} NeverClosed(v: string)
    ensures ReadLiteral(EscapeValue(v)).None?
    ensures Solid(Quoted('\''), EscapeValue(v)) && After(Quoted('\''), EscapeValue(v)) == Quoted('\'')
  {
    if v != "" {
      NeverClosed(v[1..]);
      var tail := EscapeValue(v[1..]);
      if v[0] == '\'' {
        assert ("''" + tail)[1..] == "'" + tail && ("''" + tail)[2..] == tail;
        assert ("'" + tail)[1..] == tail;
      } else {
        assert ([v[0]] + tail)[1..] == tail;
      }
    }
  }

  // ---------------------------------------------------------------------------
  // What a statement is made of
  // ---------------------------------------------------------------------------

  lemma {:induction false} InOrderWords(keys: seq<string>, c: char)
    requires AllIdentifiers(keys) && IsBreaker(c)
    ensures !InWords(OrderWords(keys), c)
  {
    if keys != [] {
      assert keys[0] in keys;
      NameHasNoBreaker(keys[0], c);
      InOrderWords(keys[1..], c);
      InWordsOne(keys[0], c);
      InWordsOne(keys[0] + ",", c);
      InWordsAppend([keys[0] + ","], OrderWords(keys[1..]), c);
    }
  }

  /** A semicolon or line break in a statement comes from a value of its condition. */
  lemma InStatement(table: string, keys: seq<string>, cond: Condition, c: char)
    requires Statement(table, keys, cond) && IsBreaker(c)
    ensures InWords(StatementWords(table, keys, cond), c) <==> InCondition(cond, c)
    ensures c in StatementText(table, keys, cond) <==> InCondition(cond, c)
  {
    var head := ["SELECT", "*", "FROM", table];
    NameHasNoBreaker(table, c);
    NoBreakerInKeywords(c);
    assert !InWords(head, c);
    InConditionWords(cond, c);
    InWordsOne("WHERE", c);
    InWordsAppend(["WHERE"], ConditionWords(cond), c);
    InOrderWords(keys, c);
    InWordsAppend(["ORDER", "BY"], OrderWords(keys), c);
    InWordsAppend(head, WhereWords(cond), c);
    InWordsAppend(head + WhereWords(cond), OrderByWords(keys), c);
    StatementTextIsJoin(table, keys, cond);
    InJoin(StatementWords(table, keys, cond), c);
  }

  lemma NoBreakerInKeywords(c: char)
    requires IsBreaker(c)
    ensures c !in "SELECT" && c !in "*" && c !in "FROM" && c !in "WHERE" && !InWords(["ORDER", "BY"], c)
  {
    assert c !in "ORDER" && c !in "BY";
  }

  /** A statement whose names are identifiers. */
  predicate Statement(table: string, keys: seq<string>, cond: Condition) {
    && IsIdentifier(table) && AllIdentifiers(keys)
    && forall i | 0 <= i < |cond| :: cond[i] != [] && ValidTerm(cond[i])
  }

  lemma {:induction false} OrderWordsSound(keys: seq<string>)
    requires AllIdentifiers(keys)
    ensures AllSound(OrderWords(keys))
  {
    if keys != [] {
      assert keys[0] in keys;
      NameIsSound(keys[0]);
      OrderWordsSound(keys[1..]);
    }
  }

  /** The words behind "SELECT *". */
  function Rest(table: string, keys: seq<string>, cond: Condition): seq<string> {
    ["FROM", table] + WhereWords(cond) + OrderByWords(keys)
  }

  lemma WordsAreRest(table: string, keys: seq<string>, cond: Condition)
    ensures StatementWords(table, keys, cond) == ["SELECT", "*"] + Rest(table, keys, cond)
  {}

  lemma RestIsSound(table: string, keys: seq<string>, cond: Condition)
    requires Statement(table, keys, cond)
    ensures AllSound(Rest(table, keys, cond))
  {
    NameIsSound(table);
    ConditionWordsSound(cond);
    OrderWordsSound(keys);
    assert IsSound("FROM") && IsSound("WHERE") && IsSound("ORDER") && IsSound("BY");
    SoundAppend(["WHERE"], ConditionWords(cond));
    SoundAppend(["ORDER", "BY"], OrderWords(keys));
    SoundAppend(["FROM", table], WhereWords(cond));
    SoundAppend(["FROM", table] + WhereWords(cond), OrderByWords(keys));
  }

  // ---------------------------------------------------------------------------
  // Length
  // ---------------------------------------------------------------------------

  /** Only a second word that starts with '*' is glued to the word before it. */
  lemma {:induction false} UnitsOfStatement(first: string, star: string, rest: seq<string>)
    requires Starred(star) && forall i | 0 <= i < |rest| :: !Starred(rest[i])
    ensures Texts(Group([first, star] + rest)) == [first + (" " + star)] + rest
  {
    var raw, n := [first, star] + rest, |rest|;
    if n == 0 {
      StarGlued(first, star);
      assert raw == [first, star];
    } else {
      var last := rest[n - 1];
      UnitsOfStatement(first, star, rest[..n - 1]);
      TextsStep(raw, n + 1);
      OneMoreWord([first, star], rest);
      OneMoreWord([first + (" " + star)], rest);
      assert raw[..n + 2] == raw && raw[n + 1] == last;
    }
  }

  lemma OneMoreWord(head: seq<string>, rest: seq<string>)
    requires rest != []
    ensures head + rest == head + rest[..|rest| - 1] + [rest[|rest| - 1]]
    ensures (head + rest)[..|head| + |rest| - 1] == head + rest[..|rest| - 1]
  {}

  lemma StarGlued(first: string, star: string)
    requires Starred(star)
    ensures Texts(Group([first, star])) == [first + (" " + star)]
  {
    var raw := [first, star];
    TextsStep(raw, 0);
    TextsStep(raw, 1);
    assert raw[..0] == [] && raw[..1] == [first] && raw[..2] == raw;
  }

  lemma WrapsExactly(sql: string, rest: seq<string>)
    requires Lex(sql) == Lexed(["SELECT", "*"] + rest, false) && BeginsLive(sql)
    requires forall i | 0 <= i < |rest| :: !Starred(rest[i])
    ensures AllFit(Wrapped(sql)) <==> WordsFit(["SELECT", "*"] + rest)
  {
    UnitsOfStatement("SELECT", "*", rest);
    assert "SELECT" + (" " + "*") == "SELECT *";
    WrapFailsExactly(sql);
    UnitsFitExactly("SELECT *", "SELECT", "*", rest);
  }

  lemma UnitsFitExactly(unit: string, first: string, second: string, rest: seq<string>)
    requires |unit| <= MAX_WORD && |first| <= MAX_WORD && |second| <= MAX_WORD
    ensures var units := [unit] + rest;
            (forall i | 0 <= i < |units| :: (if i == 0 then 0 else 1) + |units[i]| <= DATA_PREVIEW_MAX_LINE)
            <==> WordsFit([first, second] + rest)
  {
    var units, ws := [unit] + rest, [first, second] + rest;
    assert forall i | 0 < i < |units| :: units[i] == ws[i + 1];
    assert forall i | 1 < i < |ws| :: ws[i] == units[i - 1];
  }

  // ---------------------------------------------------------------------------
  // Which statements arrive
  // ---------------------------------------------------------------------------

  /** A caller can tell before the query: no value of the condition holds a semicolon or a line
      break, and a statement longer than a line has no word longer than a line. */
  predicate Arrives(table: string, keys: seq<string>, cond: Condition) {
    !InCondition(cond, ';') && !InCondition(cond, '\n') && LinesFit(table, keys, cond)
  }

  predicate LinesFit(table: string, keys: seq<string>, cond: Condition) {
    Fits(StatementText(table, keys, cond)) || WordsFit(StatementWords(table, keys, cond))
  }

  /** What the data preview reads. */
  function Received(request: PreviewRequest, s4: bool): Option<Select> { ReadSelect(LiveWords(request.text, s4)) }

  /** The ends of a statement: RunQuery trims nothing and takes it for a SELECT. */
  lemma {:induction false} StatementEnds(table: string, keys: seq<string>, cond: Condition)
    requires Statement(table, keys, cond)
    ensures var sql := StatementText(table, keys, cond);
            && TrimSpace(sql) == sql && BeginsLive(sql) && TrimSuffixCR(sql) == sql
            && (IsSingleSelect(sql) <==> !InCondition(cond, ';'))
  {
    TextIsSelect(table, keys, cond);
    BeginsAsSelect(Join(Rest(table, keys, cond), " "));
    InStatement(table, keys, cond, ';');
  }

  lemma {:induction false} TextIsSelect(table: string, keys: seq<string>, cond: Condition)
    requires Statement(table, keys, cond)
    ensures var tail := Join(Rest(table, keys, cond), " ");
            && StatementText(table, keys, cond) == Join(["SELECT", "*"], " ") + " " + tail
            && tail != "" && !IsSpace(tail[|tail| - 1])
  {
    var rest := Rest(table, keys, cond);
    StatementTextIsJoin(table, keys, cond);
    WordsAreRest(table, keys, cond);
    JoinAppend(["SELECT", "*"], rest, " ");
    RestEnds(rest, table, keys, cond);
  }

  lemma {:induction false} RestEnds(rest: seq<string>, table: string, keys: seq<string>, cond: Condition)
    requires Statement(table, keys, cond) && rest == Rest(table, keys, cond)
    ensures var tail := Join(rest, " "); tail != "" && !IsSpace(tail[|tail| - 1])
  {
    RestIsSound(table, keys, cond);
    assert IsSound(rest[|rest| - 1]);
    JoinEnds(rest);
  }

  lemma BeginsAsSelect(tail: string)
    requires tail != "" && !IsSpace(tail[|tail| - 1])
    ensures var sql := Join(["SELECT", "*"], " ") + " " + tail;
            && TrimSpace(sql) == sql && BeginsLive(sql) && TrimSuffixCR(sql) == sql
            && (IsSingleSelect(sql) <==> ';' !in sql)
  {
    var rest := " * " + tail;
    var sql := Join(["SELECT", "*"], " ") + " " + tail;
    JoinCons("SELECT", ["*"], " ");
    assert ["SELECT", "*"] == ["SELECT"] + ["*"] && Join(["*"], " ") == "*";
    assert sql == "SELECT" + rest;
    SelectIsSubmitted(rest);
    assert rest[|rest| - 1] == tail[|tail| - 1] && IsSpace('\r');
  }

  /** Without a line break. */
  lemma OneLineStatementArrives(table: string, keys: seq<string>, cond: Condition, rows: nat, s4: bool)
    requires Statement(table, keys, cond) && !InCondition(cond, ';') && !InCondition(cond, '\n') && rows > 0
    ensures var sql := StatementText(table, keys, cond);
            && (Submitted(sql, rows).Some? <==> Arrives(table, keys, cond))
            && (Submitted(sql, rows).Some? ==>
                  && Submitted(sql, rows).value.rows == rows
                  && Received(Submitted(sql, rows).value, s4) == Some(Select(table, cond, keys)))
  {
    var sql := StatementText(table, keys, cond);
    var rest := Rest(table, keys, cond);
    StatementEnds(table, keys, cond);
    InStatement(table, keys, cond, '\n');
    LexOfStatement(table, keys, cond);
    WordsAreRest(table, keys, cond);
    RestIsSound(table, keys, cond);
    WrapsExactly(sql, rest);
    OneLineIsSent(sql, StatementWords(table, keys, cond), rows, s4);
    ReadSelectBack(table, keys, cond);
  }

  lemma {:induction false} EscapeAppend(a: string, b: string)
    ensures EscapeValue(a + b) == EscapeValue(a) + EscapeValue(b)
  {
    if a == "" {
      assert a + b == b;
    } else {
      EscapeAppend(a[1..], b);
      EscapeCons(a[0], a[1..]);
      EscapeCons(a[0], a[1..] + b);
      assert a == [a[0]] + a[1..] && a + b == [a[0]] + (a[1..] + b);
      assert EscapeValue([a[0]]) + (EscapeValue(a[1..]) + EscapeValue(b))
             == EscapeValue([a[0]]) + EscapeValue(a[1..]) + EscapeValue(b);
    }
  }

  lemma {:induction false} EscapeCons(c: char, rest: string)
    ensures EscapeValue([c] + rest) == EscapeValue([c]) + EscapeValue(rest)
  {
    assert ([c] + rest)[1..] == rest && [c][1..] == "" && EscapeValue("") == "";
  }

  /** The first word with a line break. */
  lemma {:induction false} FirstBreak(ws: seq<string>) returns (i: nat)
    requires InWords(ws, '\n')
    ensures i < |ws| && '\n' in ws[i] && forall j | 0 <= j < i :: '\n' !in ws[j]
  {
    if '\n' in ws[0] {
      i := 0;
    } else {
      assert ws == [ws[0]] + ws[1..];
      InWordsAppend([ws[0]], ws[1..], '\n');
      i := FirstBreak(ws[1..]);
      i := i + 1;
      assert forall j | 0 < j < i :: ws[j] == ws[1..][j - 1];
    }
  }

  lemma {:induction false} CutAtBreak(v: string) returns (a: string, b: string)
    requires '\n' in v
    ensures v == a + "\n" + b && '\n' !in a
  {
    if v[0] == '\n' {
      a, b := "", v[1..];
    } else {
      a, b := CutAtBreak(v[1..]);
      a := [v[0]] + a;
    }
  }

  /** The text up to the break, and what is behind it. */
  lemma JoinBreaks(ws: seq<string>, i: nat, head: string, tail: string) returns (rest: string)
    requires i < |ws| && ws[i] == head + "\n" + tail
    ensures Join(ws, " ") == Join(ws[..i] + [head], " ") + "\n" + rest
  {
    var before := if i == 0 then "" else Join(ws[..i], " ") + " ";
    var after := if i + 1 == |ws| then "" else " " + Join(ws[i + 1..], " ");
    rest := tail + after;
    assert ws[i..] == [ws[i]] + ws[i + 1..];
    assert Join(ws[i..], " ") == ws[i] + after;
    assert ws == ws[..i] + ws[i..];
    if i > 0 {
      JoinAppend(ws[..i], ws[i..], " ");
      JoinAppend(ws[..i], [head], " ");
    } else {
      assert ws[..i] + [head] == [head] && ws[i..] == ws;
    }
    assert Join(ws[..i] + [head], " ") == before + head;
    assert Join(ws, " ") == before + (head + "\n" + tail + after);
  }

  /** The words of a line that ends inside a literal. */
  lemma CutLineWords(ws: seq<string>, v: string)
    requires AllClosed(ws)
    ensures Lex(Join(ws + ["'" + EscapeValue(v)], " ")).words == ws + ["'" + EscapeValue(v)]
    ensures !AllWhole(ws + ["'" + EscapeValue(v)])
  {
    var w := "'" + EscapeValue(v);
    CutLiteralIsNotWhole(v);
    assert (ws + [w])[|ws|] == w;
    assert WordList(ws + [w], true);
    LexOfJoin(ws + [w], true);
  }

  lemma {:induction false} JoinLast(ws: seq<string>, w: string, c: char)
    ensures Join(ws + [w + [c]], " ") == Join(ws + [w], " ") + [c]
  {
    if ws == [] {
      assert ws + [w] == [w] && ws + [w + [c]] == [w + [c]];
    } else {
      JoinAppend(ws, [w], " ");
      JoinAppend(ws, [w + [c]], " ");
    }
  }

  /** Without its carriage return such a line is one as well. */
  lemma CutLineTrimmed(ws: seq<string>, v: string) returns (u: string)
    ensures TrimSuffixCR(Join(ws + ["'" + EscapeValue(v)], " ")) == Join(ws + ["'" + EscapeValue(u)], " ")
  {
    var w := "'" + EscapeValue(v);
    assert (ws + [w])[|ws|] == w;
    JoinEnds(ws + [w]);
    u := v;
    if v != "" && v[|v| - 1] == '\r' {
      u := v[..|v| - 1];
      assert v == u + "\r" && EscapeValue("\r") == "\r";
      EscapeAppend(u, "\r");
      assert w == ("'" + EscapeValue(u)) + ['\r'];
      JoinLast(ws, "'" + EscapeValue(u), '\r');
    } else {
      EscapedEnds(v);
    }
  }

  lemma EscapedEnds(v: string)
    requires v == "" || v[|v| - 1] != '\r'
    ensures var w := "'" + EscapeValue(v); w[|w| - 1] != '\r'
  {
    if v != "" {
      var n := |v| - 1;
      assert v == v[..n] + [v[n]] && [v[n]][1..] == "";
      EscapeAppend(v[..n], [v[n]]);
    }
  }

  /** However it is cut into lines: a reader does not take what begins with a cut literal. */
  lemma CutIsNotRead(ws: seq<string>, v: string, received: seq<string>)
    requires AllClosed(ws) && ws + ["'" + EscapeValue(v)] <= received
    ensures ReadSelect(received).None?
  {
    var n := |ws|;
    CutLiteralIsNotWhole(v);
    assert received[n] == (ws + ["'" + EscapeValue(v)])[n];
    if ReadSelect(received).Some? {
      ReadSelectWhole(received);
    }
  }

  lemma CutStatementIsNotRead(ws: seq<string>, v: string, rest: string, s4: bool)
    requires |ws| > 0 && ws[0] == "SELECT" && AllClosed(ws) && !InWords(ws, '\n') && '\n' !in v
    requires var sql := Join(ws + ["'" + EscapeValue(v)], " ") + "\n" + rest; Rewrap(sql).Some?
    ensures var sql := Join(ws + ["'" + EscapeValue(v)], " ") + "\n" + rest;
            ReadSelect(LiveWords(Rewrap(sql).value, s4)).None?
  {
    var w := "'" + EscapeValue(v);
    var line := Join(ws + [w], " ");
    var u := CutLineTrimmed(ws, v);
    CutLineBegins(ws, w);
    CutLineBegins(ws, "'" + EscapeValue(u));
    InEscaped(v, '\n');
    InWordsOne(w, '\n');
    InWordsAppend(ws, [w], '\n');
    InJoin(ws + [w], '\n');
    CutLineWords(ws, v);
    CutLineWords(ws, u);
    FirstLineIsRewrapped(line, rest, s4);
    var received := LiveWords(Rewrap(line + "\n" + rest).value, s4);
    CutIsNotRead(ws, if ws + [w] <= received then v else u, received);
  }

  lemma CutLineBegins(ws: seq<string>, w: string)
    requires |ws| > 0 && ws[0] == "SELECT"
    ensures BeginsLive(Join(ws + [w], " "))
  {
    assert (ws + [w])[0] == "SELECT" && |ws + [w]| > 1;
  }

  /** With a line break in a value: whatever is sent is not read as a statement. */
  lemma BrokenStatementIsNotRead(table: string, keys: seq<string>, cond: Condition, rows: nat, s4: bool)
    requires Statement(table, keys, cond) && InCondition(cond, '\n')
    requires Submitted(StatementText(table, keys, cond), rows).Some?
    ensures Received(Submitted(StatementText(table, keys, cond), rows).value, s4).None?
  {
    var sql, ws := StatementText(table, keys, cond), StatementWords(table, keys, cond);
    StatementEnds(table, keys, cond);
    StatementTextIsJoin(table, keys, cond);
    StatementWordsClosed(table, keys, cond);
    InStatement(table, keys, cond, '\n');
    var i := FirstBreak(ws);
    var v := BrokenWord(table, keys, cond, i);
    BrokenWordsAreNotRead(ws, i, v, s4);
  }

  lemma BrokenWordsAreNotRead(ws: seq<string>, i: nat, v: string, s4: bool)
    requires 0 < i < |ws| && ws[0] == "SELECT" && AllClosed(ws) && forall j | 0 <= j < i :: '\n' !in ws[j]
    requires ws[i] == Literal(v) && '\n' in v && Rewrap(Join(ws, " ")).Some?
    ensures ReadSelect(LiveWords(Rewrap(Join(ws, " ")).value, s4)).None?
  {
    var a, b := CutAtBreak(v);
    CutLiteral(a, b);
    var rest := JoinBreaks(ws, i, "'" + EscapeValue(a), EscapeValue(b) + "'");
    CutStatementIsNotRead(ws[..i], a, rest, s4);
  }

  lemma {:induction false} CutLiteral(a: string, b: string)
    ensures Literal(a + "\n" + b) == ("'" + EscapeValue(a)) + "\n" + (EscapeValue(b) + "'")
  {
    EscapeAppend(a + "\n", b);
    EscapeAppend(a, "\n");
    assert "\n"[1..] == "" && EscapeValue("\n") == "\n";
    QuotesAround(EscapeValue(a), "\n", EscapeValue(b));
  }

  lemma QuotesAround(x: string, y: string, z: string)
    ensures "'" + (x + y + z) + "'" == ("'" + x) + y + (z + "'")
  {}

  lemma BrokenWord(table: string, keys: seq<string>, cond: Condition, i: nat) returns (v: string)
    requires Statement(table, keys, cond) && i < |StatementWords(table, keys, cond)|
    requires '\n' in StatementWords(table, keys, cond)[i]
    ensures i > 0 && StatementWords(table, keys, cond)[i] == Literal(v) && '\n' in v
  {
    var ws, rest := StatementWords(table, keys, cond), Rest(table, keys, cond);
    WordsAreRest(table, keys, cond);
    RestIsSound(table, keys, cond);
    assert '\n' !in "SELECT" && '\n' !in "*" && ws[0] == "SELECT" && ws[1] == "*";
    assert ws[i] == rest[i - 2] && IsSound(rest[i - 2]);
    v :| ws[i] == Literal(v);
    InEscaped(v, '\n');
  }

  /** The main result: a statement arrives, as the query that was meant and with its number of rows,
      exactly when its values and its length allow it; otherwise it is not sent, or not read. */
  lemma StatementArrivesExactly(table: string, keys: seq<string>, cond: Condition, rows: nat, s4: bool)
    requires Statement(table, keys, cond) && rows > 0
    ensures var request := Submitted(StatementText(table, keys, cond), rows);
            if Arrives(table, keys, cond)
            then && request.Some? && request.value.rows == rows && !HasLongLine(request.value.text)
                 && Received(request.value, s4) == Some(Select(table, cond, keys))
            else request.None? || Received(request.value, s4).None?
  {
    var sql := StatementText(table, keys, cond);
    StatementEnds(table, keys, cond);
    if !InCondition(cond, ';') && Submitted(sql, rows).Some? {
      SentHasNoLongLine(sql, rows);
    }
    if InCondition(cond, '\n') {
      if Submitted(sql, rows).Some? {
        BrokenStatementIsNotRead(table, keys, cond, rows, s4);
      }
    } else if !InCondition(cond, ';') {
      OneLineStatementArrives(table, keys, cond, rows, s4);
    }
  }
}
