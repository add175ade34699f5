/** Key-based pagination in ABAP SQL (adt/abapsql.go).

    A WHERE clause is an OR of ANDs of comparisons. The text the program prints is read back with
    the lexer of the data preview (module QueryWrap), so what is proved of the condition holds of
    the text that is sent, also after it has been re-wrapped. */
module AbapSql {
  import opened Text
  import opened QueryWrap
  import opened Wrappers

  // ---------------------------------------------------------------------------
  // Literals
  // ---------------------------------------------------------------------------

  /** Single quotes doubled. */
  function EscapeValue(v: string): string {
    if v == "" then "" else (if v[0] == '\'' then "''" else [v[0]]) + EscapeValue(v[1..])
  }

  /** A value without quotes is its own escape. */
  lemma {:induction false} QuoteFree(v: string)
    requires '\'' !in v
    ensures EscapeValue(v) == v
  {
    if v != "" {
      QuoteFree(v[1..]);
      assert v == [v[0]] + v[1..];
    }
  }

  function Literal(v: string): string { "'" + EscapeValue(v) + "'" }

  /** Reads the rest of a literal, after its opening quote: a doubled quote is a quote, a single one
      ends the literal. Gives the value and what follows the literal. */
  function ReadLiteral(s: string): Option<(string, string)> {
    if s == "" then None
    else if s[0] != '\'' then
      (match ReadLiteral(s[1..]) case None => None case Some((v, rest)) => Some(([s[0]] + v, rest)))
    else if |s| > 1 && s[1] == '\'' then
      (match ReadLiteral(s[2..]) case None => None case Some((v, rest)) => Some((['\''] + v, rest)))
    else Some(("", s[1..]))
  }

  /** Reading an escaped literal returns the value, for every value. */
  lemma {:induction false} LiteralRoundTrip(v: string, rest: string)
    requires rest == "" || rest[0] != '\''
    ensures ReadLiteral(EscapeValue(v) + "'" + rest) == Some((v, rest))
  {
    var s := EscapeValue(v) + "'" + rest;
    if v == "" {
      assert s == "'" + rest && s[1..] == rest;
    } else {
      LiteralRoundTrip(v[1..], rest);
      var tail := EscapeValue(v[1..]) + "'" + rest;
      assert v == [v[0]] + v[1..];
      if v[0] == '\'' {
        assert s == "''" + tail && s[2..] == tail;
      } else {
        assert s == [v[0]] + tail && s[1..] == tail;
      }
    }
  }

  // ---------------------------------------------------------------------------
  // Conditions and their meaning
  // ---------------------------------------------------------------------------

  datatype Op = Eq | Gt | Lt

  /** column op 'value'; cast says the column is compared as CAST( column AS CHAR( 6 ) ). */
  datatype Cmp = Cmp(column: string, cast: bool, op: Op, value: string)

  type Condition = seq<seq<Cmp>>

  /** Text comparison of the database: its collation is a parameter, read as "is less than". */
  type Order = (string, string) -> bool

  predicate CmpHolds(c: Cmp, row: map<string, string>, less: Order) {
    c.column in row &&
    match c.op
    case Eq => row[c.column] == c.value
    case Gt => less(c.value, row[c.column])
    case Lt => less(row[c.column], c.value)
  }

  predicate TermHolds(term: seq<Cmp>, row: map<string, string>, less: Order) {
    forall i | 0 <= i < |term| :: CmpHolds(term[i], row, less)
  }

  predicate Holds(cond: Condition, row: map<string, string>, less: Order) {
    exists i :: 0 <= i < |cond| && TermHolds(cond[i], row, less)
  }

  /** Tuple comparison, which ABAP SQL does not have. */
  predicate LexLess(a: seq<string>, b: seq<string>, less: Order) {
    a != [] && b != [] && (less(a[0], b[0]) || (a[0] == b[0] && LexLess(a[1..], b[1..], less)))
  }

  predicate TransitiveAt(less: Order, a: string, b: string, c: string) { less(a, b) && less(b, c) ==> less(a, c) }

  predicate IrreflexiveAt(less: Order, a: string) { !less(a, a) }

  ghost predicate StrictOrder(less: Order) {
    (forall a :: IrreflexiveAt(less, a)) && (forall a, b, c :: TransitiveAt(less, a, b, c))
  }

  lemma {:induction false} LexLessTransitive(a: seq<string>, b: seq<string>, c: seq<string>, less: Order)
    requires StrictOrder(less) && LexLess(a, b, less) && LexLess(b, c, less)
    ensures LexLess(a, c, less)
  {
    assert TransitiveAt(less, a[0], b[0], c[0]);
    if !less(a[0], b[0]) && !less(b[0], c[0]) {
      LexLessTransitive(a[1..], b[1..], c[1..], less);
    }
  }

  lemma {:induction false} LexLessIrreflexive(a: seq<string>, less: Order)
    requires StrictOrder(less)
    ensures !LexLess(a, a, less)
  {
    if a != [] {
      assert IrreflexiveAt(less, a[0]);
      LexLessIrreflexive(a[1..], less);
    }
  }

  lemma {:induction false} LexLessAt(a: seq<string>, b: seq<string>, less: Order)
    requires |a| == |b|
    ensures LexLess(a, b, less) <==> exists i :: 0 <= i < |a| && a[..i] == b[..i] && less(a[i], b[i])
  {
    if a != [] {
      LexLessAt(a[1..], b[1..], less);
      if LexLess(a, b, less) {
        if less(a[0], b[0]) {
          assert a[..0] == b[..0];
        } else {
          var i :| 0 <= i < |a[1..]| && a[1..][..i] == b[1..][..i] && less(a[1..][i], b[1..][i]);
          assert a[..i + 1] == [a[0]] + a[1..][..i] && b[..i + 1] == [b[0]] + b[1..][..i];
          assert less(a[i + 1], b[i + 1]);
        }
      }
      if i :| 0 <= i < |a| && a[..i] == b[..i] && less(a[i], b[i]) {
        if i > 0 {
          assert a[0] == a[..i][0] == b[..i][0] == b[0];
          assert a[1..][..i - 1] == a[..i][1..] && b[1..][..i - 1] == b[..i][1..];
          assert less(a[1..][i - 1], b[1..][i - 1]);
        }
      }
    }
  }

  // ---------------------------------------------------------------------------
  // The pagination condition
  // ---------------------------------------------------------------------------

  const DDIC_TYPE_TIMS := "TIMS"

  function TypeOf(key: string, keyTypes: map<string, string>): string {
    if key in keyTypes then keyTypes[key] else ""
  }

  predicate IsTims(key: string, keyTypes: map<string, string>) { Upper(TypeOf(key, keyTypes)) == DDIC_TYPE_TIMS }

  /** keys[..i] equal, keys[i] op. */
  function Term(keys: seq<string>, values: seq<string>, keyTypes: map<string, string>, i: nat, op: Op): (t: seq<Cmp>)
    requires i < |keys| == |values|
    ensures |t| == i + 1
    ensures forall j | 0 <= j <= i ::
              t[j] == Cmp(keys[j], IsTims(keys[j], keyTypes), if j < i then Eq else op, values[j])
  {
    seq(i + 1, j requires 0 <= j <= i =>
      Cmp(keys[j], IsTims(keys[j], keyTypes), if j < i then Eq else op, values[j]))
  }

  /** The rows after (op = Gt) or before (op = Lt) the given key values. */
  function Chain(keys: seq<string>, values: seq<string>, keyTypes: map<string, string>, op: Op): (c: Condition)
    requires |keys| == |values|
    ensures |c| == |keys|
    ensures forall i | 0 <= i < |c| :: c[i] == Term(keys, values, keyTypes, i, op)
  {
    seq(|keys|, i requires 0 <= i < |keys| => Term(keys, values, keyTypes, i, op))
  }

  /** A key is compared as text exactly when its type is TIMS, in whatever case. */
  lemma {:induction false} TimesAreCast(keys: seq<string>, values: seq<string>, keyTypes: map<string, string>, op: Op,
                                        i: nat, j: nat)
    requires |keys| == |values| && j <= i < |keys|
    ensures Chain(keys, values, keyTypes, op)[i][j].column == keys[j]
    ensures OperandText(keys[j], Chain(keys, values, keyTypes, op)[i][j].cast)
            == if keys[j] in keyTypes && Upper(keyTypes[keys[j]]) == "TIMS" then "CAST( " + keys[j] + " AS CHAR( 6 ) )"
               else keys[j]
  {
    assert "" != "TIMS" && Upper("") == "";
  }

  function Project(row: map<string, string>, keys: seq<string>): (r: seq<string>)
    requires forall k | k in keys :: k in row
    ensures |r| == |keys|
    ensures forall i | 0 <= i < |keys| :: r[i] == row[keys[i]]
  {
    seq(|keys|, i requires 0 <= i < |keys| => row[keys[i]])
  }

  predicate Beyond(a: seq<string>, b: seq<string>, less: Order, op: Op) {
    match op case Gt => LexLess(a, b, less) case Lt => LexLess(b, a, less) case Eq => a == b
  }

  /** For any number of keys, the OR-chain holds of a row exactly when its key tuple is strictly
      beyond the given values in lexicographic order. */
  lemma ChainMeansLexicographic(keys: seq<string>, values: seq<string>, keyTypes: map<string, string>, op: Op,
                                row: map<string, string>, less: Order)
    requires |keys| == |values| && op != Eq && forall k | k in keys :: k in row
    ensures Holds(Chain(keys, values, keyTypes, op), row, less) <==> Beyond(values, Project(row, keys), less, op)
  {
    var c, t := Chain(keys, values, keyTypes, op), Project(row, keys);
    forall i | 0 <= i < |c|
      ensures TermHolds(c[i], row, less) <==>
              values[..i] == t[..i] && if op == Gt then less(values[i], t[i]) else less(t[i], values[i])
    {
      TermMeans(keys, values, keyTypes, op, row, less, i);
    }
    if op == Gt {
      LexLessAt(values, t, less);
    } else {
      LexLessAt(t, values, less);
      assert forall i | 0 <= i <= |t| :: t[..i] == values[..i] <==> values[..i] == t[..i];
    }
  }

  lemma TermMeans(keys: seq<string>, values: seq<string>, keyTypes: map<string, string>, op: Op,
                  row: map<string, string>, less: Order, i: nat)
    requires i < |keys| == |values| && op != Eq && forall k | k in keys :: k in row
    ensures var t := Project(row, keys);
            TermHolds(Term(keys, values, keyTypes, i, op), row, less) <==>
            values[..i] == t[..i] && if op == Gt then less(values[i], t[i]) else less(t[i], values[i])
  {
    var term, t := Term(keys, values, keyTypes, i, op), Project(row, keys);
    assert keys[i] in keys && term[i].op == op;
    if TermHolds(term, row, less) {
      assert CmpHolds(term[i], row, less);
      forall j | 0 <= j < i ensures values[j] == t[j] {
        assert CmpHolds(term[j], row, less);
      }
    } else {
      var j :| 0 <= j <= i && !CmpHolds(term[j], row, less);
      assert keys[j] in keys;
      if j < i {
        assert values[..i][j] != t[..i][j];
      }
    }
  }

  // ---------------------------------------------------------------------------
  // Printing
  // ---------------------------------------------------------------------------

  function OpText(op: Op): string { match op case Eq => "=" case Gt => ">" case Lt => "<" }

  function OperandText(column: string, cast: bool): string {
    if cast then "CAST( " + column + " AS CHAR( 6 ) )" else column
  }

  function CmpText(c: Cmp): string {
    OperandText(c.column, c.cast) + (match c.op case Eq => " = '" case Gt => " > '" case Lt => " < '")
    + EscapeValue(c.value) + "'"
  }

  function CmpTexts(t: seq<Cmp>): (r: seq<string>)
    ensures |r| == |t|
    ensures forall i | 0 <= i < |t| :: r[i] == CmpText(t[i])
  {
    seq(|t|, i requires 0 <= i < |t| => CmpText(t[i]))
  }

  /** One comparison stands alone; several are parenthesised. */
  function Parenthesised(parts: seq<string>): string {
    if |parts| == 1 then parts[0] else "( " + Join(parts, " AND ") + " )"
  }

  function TermText(t: seq<Cmp>): string { Parenthesised(CmpTexts(t)) }

  function TermTexts(c: Condition): (r: seq<string>)
    ensures |r| == |c|
    ensures forall i | 0 <= i < |c| :: r[i] == TermText(c[i])
  {
    seq(|c|, i requires 0 <= i < |c| => TermText(c[i]))
  }

  function ConditionText(c: Condition): string { Join(TermTexts(c), " OR ") }

  /** keyOperand. */
  function KeyOperand(key: string, keyTypes: map<string, string>): string {
    if IsTims(key, keyTypes) then "CAST( " + key + " AS CHAR( 6 ) )" else key
  }

  /** buildPaginationWhereTyped, inner loop: all preceding keys equal, the i-th strictly greater. */
  method BuildParts(keys: seq<string>, lastValues: seq<string>, keyTypes: map<string, string>, i: nat)
    returns (parts: seq<string>)
    requires i < |keys| == |lastValues|
    ensures parts == CmpTexts(Term(keys, lastValues, keyTypes, i, Gt))
  {
    ghost var term := Term(keys, lastValues, keyTypes, i, Gt);
    parts := [];
    for j := 0 to i
      invariant |parts| == j && forall k | 0 <= k < j :: parts[k] == CmpText(term[k])
    {
      parts := parts + [KeyOperand(keys[j], keyTypes) + " = '" + EscapeValue(lastValues[j]) + "'"];
    }
    parts := parts + [KeyOperand(keys[i], keyTypes) + " > '" + EscapeValue(lastValues[i]) + "'"];
  }

  /** buildPaginationWhereTyped: the nested loops print the OR-chain. */
  method BuildPaginationWhereTyped(keys: seq<string>, lastValues: seq<string>, keyTypes: map<string, string>)
    returns (where: string)
    ensures where == if keys == [] || |keys| != |lastValues| then ""
                     else ConditionText(Chain(keys, lastValues, keyTypes, Gt))
  {
    if |keys| == 0 || |keys| != |lastValues| {
      return "";
    }
    ghost var chain := Chain(keys, lastValues, keyTypes, Gt);
    var terms: seq<string> := [];
    for i := 0 to |keys|
      invariant |terms| == i && forall k | 0 <= k < i :: terms[k] == TermText(chain[k])
    {
      var parts := BuildParts(keys, lastValues, keyTypes, i);
      terms := terms + [Parenthesised(parts)];
    }
    assert terms == TermTexts(chain);
    return Join(terms, " OR ");
  }

  // ---------------------------------------------------------------------------
  // The words of the printed text
  // ---------------------------------------------------------------------------

  function OperandWords(column: string, cast: bool): seq<string> {
    if cast then ["CAST(", column, "AS", "CHAR(", "6", ")", ")"] else [column]
  }

  function CmpWords(c: Cmp): seq<string> { OperandWords(c.column, c.cast) + [OpText(c.op), Literal(c.value)] }

  function AndWords(t: seq<Cmp>): seq<string> {
    if t == [] then [] else CmpWords(t[0]) + (if |t| == 1 then [] else ["AND"] + AndWords(t[1..]))
  }

  function TermWords(t: seq<Cmp>): seq<string> {
    if |t| == 1 then CmpWords(t[0]) else ["("] + AndWords(t) + [")"]
  }

  function ConditionWords(c: Condition): seq<string> {
    if c == [] then [] else TermWords(c[0]) + (if |c| == 1 then [] else ["OR"] + ConditionWords(c[1..]))
  }

  lemma CmpTextIsJoin(c: Cmp)
    ensures CmpText(c) == Join(CmpWords(c), " ")
  {
    var tail := [OpText(c.op), Literal(c.value)];
    assert Join(tail[1..], " ") == Literal(c.value);
    JoinAppend(OperandWords(c.column, c.cast), tail, " ");
    OperandTextIsJoin(c.column, c.cast);
  }

  lemma OperandTextIsJoin(column: string, cast: bool)
    ensures OperandText(column, cast) == Join(OperandWords(column, cast), " ")
  {
    if cast {
      CastTextIsJoin(column);
    } else {
      assert Join([column], " ") == column;
    }
  }

  lemma CastTextIsJoin(column: string)
    ensures OperandText(column, true) == Join(OperandWords(column, true), " ")
  {
    var tail := ["AS", "CHAR(", "6", ")", ")"];
    JoinFive("AS", "CHAR(", "6", ")", ")");
    JoinCons(column, tail, " ");
    JoinCons("CAST(", [column] + tail, " ");
    assert OperandWords(column, true) == ["CAST("] + ([column] + tail);
  }

  lemma JoinFive(a: string, b: string, c: string, d: string, e: string)
    ensures Join([a, b, c, d, e], " ") == a + " " + b + " " + c + " " + d + " " + e
  {
    JoinCons(d, [e], " ");
    JoinCons(c, [d, e], " ");
    JoinCons(b, [c, d, e], " ");
    JoinCons(a, [b, c, d, e], " ");
    assert [d] + [e] == [d, e] && [c] + [d, e] == [c, d, e] && [b] + [c, d, e] == [b, c, d, e];
    assert [a] + [b, c, d, e] == [a, b, c, d, e];
  }

  /** Joining with a keyword between two texts is joining their words with spaces. */
  lemma JoinWithKeyword(a: seq<string>, keyword: string, b: seq<string>)
    requires a != [] && b != []
    ensures Join(a + ([keyword] + b), " ") == Join(a, " ") + (" " + keyword + " ") + Join(b, " ")
  {
    JoinAppend(a, [keyword] + b, " ");
    JoinCons(keyword, b, " ");
  }

  lemma {:induction false} AndTextIsJoin(t: seq<Cmp>)
    requires t != []
    ensures Join(CmpTexts(t), " AND ") == Join(AndWords(t), " ") && AndWords(t) != []
  {
    CmpTextIsJoin(t[0]);
    if |t| > 1 {
      AndTextIsJoin(t[1..]);
      assert CmpTexts(t)[1..] == CmpTexts(t[1..]);
      JoinWithKeyword(CmpWords(t[0]), "AND", AndWords(t[1..]));
      assert " " + "AND" + " " == " AND ";
    } else {
      assert AndWords(t) == CmpWords(t[0]);
    }
  }

  lemma JoinParenthesised(ws: seq<string>)
    requires ws != []
    ensures Join(["("] + ws + [")"], " ") == "( " + Join(ws, " ") + " )"
  {
    JoinAppend(ws, [")"], " ");
    JoinCons("(", ws + [")"], " ");
    assert ["("] + ws + [")"] == ["("] + (ws + [")"]);
  }

  lemma TermTextIsJoin(t: seq<Cmp>)
    requires t != []
    ensures TermText(t) == Join(TermWords(t), " ") && TermWords(t) != []
  {
    if |t| == 1 {
      CmpTextIsJoin(t[0]);
    } else {
      AndTextIsJoin(t);
      JoinParenthesised(AndWords(t));
    }
  }

  lemma {:induction false} ConditionTextIsJoin(c: Condition)
    requires c != [] && forall i | 0 <= i < |c| :: c[i] != []
    ensures ConditionText(c) == Join(ConditionWords(c), " ") && ConditionWords(c) != []
  {
    TermTextIsJoin(c[0]);
    if |c| > 1 {
      ConditionTextIsJoin(c[1..]);
      assert TermTexts(c)[1..] == TermTexts(c[1..]);
      JoinWithKeyword(TermWords(c[0]), "OR", ConditionWords(c[1..]));
      assert " " + "OR" + " " == " OR ";
    } else {
      assert ConditionWords(c) == TermWords(c[0]);
    }
  }

  // ---------------------------------------------------------------------------
  // Reading the words back
  // ---------------------------------------------------------------------------

  function ReadWord(w: string): Option<string> {
    if w == "" || w[0] != '\'' then None else
    match ReadLiteral(w[1..])
    case Some((v, rest)) => if rest == "" then Some(v) else None
    case None => None
  }

  function ReadOp(w: string): Option<Op> {
    if w == "=" then Some(Eq) else if w == ">" then Some(Gt) else if w == "<" then Some(Lt) else None
  }

  function ReadOperand(ws: seq<string>): (r: Option<(string, bool, seq<string>)>)
    ensures r.Some? ==> |r.value.2| < |ws|
  {
    if |ws| >= 7 && ws[0] == "CAST(" && IsIdentifier(ws[1]) && ws[2..7] == ["AS", "CHAR(", "6", ")", ")"]
    then Some((ws[1], true, ws[7..]))
    else if ws == [] || !IsIdentifier(ws[0]) then None
    else Some((ws[0], false, ws[1..]))
  }

  function ReadCmp(ws: seq<string>): (r: Option<(Cmp, seq<string>)>)
    ensures r.Some? ==> |r.value.1| < |ws|
  {
    match ReadOperand(ws)
    case None => None
    case Some((column, cast, rest)) =>
      if |rest| < 2 || ReadOp(rest[0]).None? || ReadWord(rest[1]).None? then None
      else Some((Cmp(column, cast, ReadOp(rest[0]).value, ReadWord(rest[1]).value), rest[2..]))
  }

  function ReadAnd(ws: seq<string>): (r: Option<(seq<Cmp>, seq<string>)>)
    ensures r.Some? ==> |r.value.1| < |ws|
    decreases |ws|
  {
    match ReadCmp(ws)
    case None => None
    case Some((c, rest)) =>
      if rest == [] || rest[0] != "AND" then Some(([c], rest)) else
      match ReadAnd(rest[1..])
      case None => None
      case Some((cs, rest')) => Some(([c] + cs, rest'))
  }

  function ReadTerm(ws: seq<string>): (r: Option<(seq<Cmp>, seq<string>)>)
    ensures r.Some? ==> |r.value.1| < |ws|
  {
    if ws != [] && ws[0] == "(" then
      (match ReadAnd(ws[1..])
       case None => None
       case Some((cs, rest)) => if rest == [] || rest[0] != ")" then None else Some((cs, rest[1..])))
    else
      match ReadCmp(ws) case None => None case Some((c, rest)) => Some(([c], rest))
  }

  function ReadCondition(ws: seq<string>): (r: Option<(Condition, seq<string>)>)
    ensures r.Some? ==> |r.value.1| < |ws|
    decreases |ws|
  {
    match ReadTerm(ws)
    case None => None
    case Some((t, rest)) =>
      if rest == [] || rest[0] != "OR" then Some(([t], rest)) else
      match ReadCondition(rest[1..])
      case None => None
      case Some((ts, rest')) => Some(([t] + ts, rest'))
  }

  predicate IsIdentifierChar(c: char) {
    'A' <= c <= 'Z' || 'a' <= c <= 'z' || '0' <= c <= '9' || c == '/' || c == '_' || c == '#'
  }

  /** validateIdentifier. */
  predicate IsIdentifier(s: string) { s != "" && forall i | 0 <= i < |s| :: IsIdentifierChar(s[i]) }

  predicate ValidCondition(c: Condition) {
    c != [] && forall i | 0 <= i < |c| :: c[i] != [] && ValidTerm(c[i])
  }

  predicate ValidTerm(t: seq<Cmp>) { forall i | 0 <= i < |t| :: IsIdentifier(t[i].column) }

  lemma ReadCmpBack(c: Cmp, rest: seq<string>)
    requires IsIdentifier(c.column)
    ensures ReadCmp(CmpWords(c) + rest) == Some((c, rest))
  {
    var ws := CmpWords(c) + rest;
    var tail := [OpText(c.op), Literal(c.value)] + rest;
    assert c.column != "CAST(" by {
      assert "CAST("[4] == '(';
      if |c.column| == 5 { assert IsIdentifierChar(c.column[4]); }
    }
    assert ReadOperand(ws) == Some((c.column, c.cast, tail)) by {
      assert ws == OperandWords(c.column, c.cast) + tail;
      if c.cast {
        assert ws[2..7] == ["AS", "CHAR(", "6", ")", ")"] && ws[7..] == tail;
      } else {
        assert ws[0] == c.column && ws[1..] == tail;
      }
    }
    LiteralRoundTrip(c.value, "");
    assert Literal(c.value)[1..] == EscapeValue(c.value) + "'" + "";
    assert tail[2..] == rest;
  }

  lemma KeywordBetween(a: seq<string>, keyword: string, b: seq<string>, c: seq<string>)
    ensures a + ([keyword] + b) + c == a + ([keyword] + (b + c))
    ensures ([keyword] + (b + c))[1..] == b + c
  {}

  lemma ReadAndStep(ws: seq<string>, c: Cmp, more: seq<string>, t: seq<Cmp>, rest: seq<string>)
    requires ReadCmp(ws) == Some((c, more)) && more != [] && more[0] == "AND"
    requires ReadAnd(more[1..]) == Some((t, rest))
    ensures ReadAnd(ws) == Some(([c] + t, rest))
  {}

  lemma {:induction false} ReadAndBack(t: seq<Cmp>, rest: seq<string>)
    requires t != [] && ValidTerm(t) && (rest == [] || rest[0] != "AND")
    ensures ReadAnd(AndWords(t) + rest) == Some((t, rest))
    decreases |t|
  {
    if |t| == 1 {
      ReadCmpBack(t[0], rest);
      assert AndWords(t) == CmpWords(t[0]) && [t[0]] == t;
    } else {
      var head, tail := CmpWords(t[0]), AndWords(t[1..]);
      var more := ["AND"] + (tail + rest);
      ReadAndBack(t[1..], rest);
      ReadCmpBack(t[0], more);
      KeywordBetween(head, "AND", tail, rest);
      ReadAndStep(head + more, t[0], more, t[1..], rest);
      assert t == [t[0]] + t[1..];
    }
  }

  lemma ReadTermBack(t: seq<Cmp>, rest: seq<string>)
    requires t != [] && ValidTerm(t)
    ensures ReadTerm(TermWords(t) + rest) == Some((t, rest))
  {
    if |t| == 1 {
      ReadSingleBack(t[0], rest);
      assert [t[0]] == t;
    } else {
      ReadAndBack(t, [")"] + rest);
      ReadParenthesised(AndWords(t), t, rest);
    }
  }

  lemma ReadSingleBack(c: Cmp, rest: seq<string>)
    requires IsIdentifier(c.column)
    ensures ReadTerm(CmpWords(c) + rest) == Some(([c], rest))
  {
    var ws := CmpWords(c) + rest;
    ReadCmpBack(c, rest);
    assert ws[0] == if c.cast then "CAST(" else c.column;
    assert c.column[0] != '(' && ws[0] != "(" by {
      assert IsIdentifierChar(c.column[0]);
    }
  }

  lemma ReadParenthesised(inner: seq<string>, t: seq<Cmp>, rest: seq<string>)
    requires ReadAnd(inner + ([")"] + rest)) == Some((t, [")"] + rest))
    ensures ReadTerm(["("] + inner + [")"] + rest) == Some((t, rest))
  {
    Enclosed("(", inner, ")", rest);
    ReadParenthesisedStep(["("] + inner + [")"] + rest, t, [")"] + rest);
  }

  lemma Enclosed(first: string, inner: seq<string>, last: string, rest: seq<string>)
    ensures var ws := [first] + inner + [last] + rest;
            ws != [] && ws[0] == first && ws[1..] == inner + ([last] + rest) && ([last] + rest)[1..] == rest
  {}

  lemma ReadParenthesisedStep(ws: seq<string>, t: seq<Cmp>, more: seq<string>)
    requires ws != [] && ws[0] == "(" && more != [] && more[0] == ")"
    requires ReadAnd(ws[1..]) == Some((t, more))
    ensures ReadTerm(ws) == Some((t, more[1..]))
  {}

  lemma ReadConditionStep(ws: seq<string>, t: seq<Cmp>, more: seq<string>, c: Condition, rest: seq<string>)
    requires ReadTerm(ws) == Some((t, more)) && more != [] && more[0] == "OR"
    requires ReadCondition(more[1..]) == Some((c, rest))
    ensures ReadCondition(ws) == Some(([t] + c, rest))
  {}

  /** The words of a printed condition read back as the condition. */
  lemma {:induction false} ReadConditionBack(c: Condition, rest: seq<string>)
    requires ValidCondition(c) && (rest == [] || rest[0] != "OR")
    ensures ReadCondition(ConditionWords(c) + rest) == Some((c, rest))
    decreases |c|
  {
    if |c| == 1 {
      ReadTermBack(c[0], rest);
      assert ConditionWords(c) == TermWords(c[0]) && [c[0]] == c;
    } else {
      var head, tail := TermWords(c[0]), ConditionWords(c[1..]);
      var more := ["OR"] + (tail + rest);
      ReadConditionBack(c[1..], rest);
      ReadTermBack(c[0], more);
      KeywordBetween(head, "OR", tail, rest);
      ReadConditionStep(head + more, c[0], more, c[1..], rest);
      assert c == [c[0]] + c[1..];
    }
  }

  // ---------------------------------------------------------------------------
  // The export statement
  // ---------------------------------------------------------------------------

  /** The condition of a page: none for the first page or a table without a key to paginate on. */
  function PageCondition(keys: seq<string>, lastValues: seq<string>, keyTypes: map<string, string>): Condition {
    if keys == [] || |keys| != |lastValues| then [] else Chain(keys, lastValues, keyTypes, Gt)
  }

  function Spaced(keyword: string): string { " " + keyword + " " }

  function WhereText(cond: Condition): string {
    if cond == [] then "" else Spaced("WHERE") + ConditionText(cond)
  }

  function OrderByText(keys: seq<string>): string {
    if keys == [] then "" else Spaced("ORDER") + ("BY" + " " + Join(keys, ", "))
  }

  function StatementText(table: string, allKeys: seq<string>, cond: Condition): string {
    "SELECT" + Spaced("*") + "FROM" + " " + table + WhereText(cond) + OrderByText(allKeys)
  }

  predicate AllIdentifiers(names: seq<string>) { forall n | n in names :: IsIdentifier(n) }

  method ValidateIdentifiers(names: seq<string>) returns (ok: bool)
    ensures ok <==> AllIdentifiers(names)
  {
    for i := 0 to |names|
      invariant forall j | 0 <= j < i :: IsIdentifier(names[j])
    {
      if !IsIdentifier(names[i]) {
        return false;
      }
    }
    return true;
  }

  /** BuildExportSQLTyped. */
  method BuildExportSQLTyped(table: string, allKeys: seq<string>, paginateKeys: seq<string>,
                             lastValues: seq<string>, keyTypes: map<string, string>)
    returns (sql: Option<string>)
    ensures sql == if !IsIdentifier(table) || !AllIdentifiers(allKeys) || !AllIdentifiers(paginateKeys) then None
                   else Some(StatementText(table, allKeys, PageCondition(paginateKeys, lastValues, keyTypes)))
  {
    if !IsIdentifier(table) {
      return None;
    }
    var ok := ValidateIdentifiers(allKeys);
    if !ok {
      return None;
    }
    ok := ValidateIdentifiers(paginateKeys);
    if !ok {
      return None;
    }
    var sb := "SELECT" + Spaced("*") + "FROM" + " " + table;
    ghost var cond := PageCondition(paginateKeys, lastValues, keyTypes);
    ghost var select := sb;
    if |lastValues| > 0 && |paginateKeys| > 0 {
      var where := BuildPaginationWhereTyped(paginateKeys, lastValues, keyTypes);
      if where != "" {
        sb := sb + (Spaced("WHERE") + where);
      }
      if |paginateKeys| == |lastValues| {
        ConditionTextNonEmpty(cond);
      }
    }
    assert select + "" == select;
    assert sb == select + WhereText(cond);
    assert sb + "" == sb;
    if |allKeys| > 0 {
      sb := sb + (Spaced("ORDER") + ("BY" + " " + Join(allKeys, ", ")));
    }
    return Some(sb);
  }

  lemma ConditionTextNonEmpty(c: Condition)
    requires c != [] && forall i | 0 <= i < |c| :: c[i] != []
    ensures ConditionText(c) != ""
  {
    assert TermTexts(c)[0] == TermText(c[0]);
    assert CmpTexts(c[0])[0] == CmpText(c[0][0]);
  }

  function OrderWords(keys: seq<string>): seq<string> {
    if keys == [] then [] else if |keys| == 1 then keys else [keys[0] + ","] + OrderWords(keys[1..])
  }

  function WhereWords(cond: Condition): seq<string> { if cond == [] then [] else ["WHERE"] + ConditionWords(cond) }

  function OrderByWords(keys: seq<string>): seq<string> {
    if keys == [] then [] else ["ORDER", "BY"] + OrderWords(keys)
  }

  function StatementWords(table: string, allKeys: seq<string>, cond: Condition): seq<string> {
    ["SELECT", "*", "FROM", table] + WhereWords(cond) + OrderByWords(allKeys)
  }

  lemma {:induction false} OrderTextIsJoin(keys: seq<string>)
    requires keys != []
    ensures Join(keys, ", ") == Join(OrderWords(keys), " ") && OrderWords(keys) != []
  {
    if |keys| > 1 {
      OrderTextIsJoin(keys[1..]);
      JoinCons(keys[0] + ",", OrderWords(keys[1..]), " ");
      assert keys[0] + ", " == keys[0] + "," + " ";
    }
  }

  lemma JoinFour(a: string, b: string, c: string, d: string)
    ensures Join([a, b, c, d], " ") == a + Spaced(b) + c + " " + d
  {
    JoinCons(c, [d], " ");
    JoinCons(b, [c, d], " ");
    JoinCons(a, [b, c, d], " ");
    assert [c] + [d] == [c, d] && [b] + [c, d] == [b, c, d] && [a] + [b, c, d] == [a, b, c, d];
  }

  /** The text of the statement is its words with single spaces between them. */
  lemma StatementTextIsJoin(table: string, allKeys: seq<string>, cond: Condition)
    requires forall i | 0 <= i < |cond| :: cond[i] != []
    ensures StatementText(table, allKeys, cond) == Join(StatementWords(table, allKeys, cond), " ")
  {
    var head := ["SELECT", "*", "FROM", table];
    JoinFour("SELECT", "*", "FROM", table);
    WhereTextIsJoin(head, cond);
    OrderByTextIsJoin(head + WhereWords(cond), allKeys);
  }

  lemma WhereTextIsJoin(head: seq<string>, cond: Condition)
    requires head != [] && forall i | 0 <= i < |cond| :: cond[i] != []
    ensures Join(head, " ") + WhereText(cond) == Join(head + WhereWords(cond), " ")
  {
    if cond == [] {
      assert head + WhereWords(cond) == head;
    } else {
      ConditionTextIsJoin(cond);
      JoinClause(head, "WHERE", ConditionWords(cond));
    }
  }

  lemma JoinClause(head: seq<string>, keyword: string, words: seq<string>)
    requires head != [] && words != []
    ensures Join(head, " ") + (Spaced(keyword) + Join(words, " ")) == Join(head + ([keyword] + words), " ")
  {
    JoinWithKeyword(head, keyword, words);
  }

  lemma OrderByTextIsJoin(head: seq<string>, keys: seq<string>)
    requires head != []
    ensures Join(head, " ") + OrderByText(keys) == Join(head + OrderByWords(keys), " ")
  {
    if keys == [] {
      assert head + OrderByWords(keys) == head;
    } else {
      OrderTextIsJoin(keys);
      JoinByClause(head, "ORDER", "BY", OrderWords(keys));
    }
  }

  lemma JoinByClause(head: seq<string>, first: string, second: string, words: seq<string>)
    requires head != [] && words != []
    ensures Join(head, " ") + (Spaced(first) + (second + " " + Join(words, " ")))
            == Join(head + ([first, second] + words), " ")
  {
    JoinCons(second, words, " ");
    JoinClause(head, first, [second] + words);
    assert [first] + ([second] + words) == [first, second] + words;
  }

  // ---------------------------------------------------------------------------
  // The lexer of the data preview reads those words
  // ---------------------------------------------------------------------------

  predicate IsClosedWord(w: string) { w != "" && Solid(Code, w) && After(Code, w) == Code }

  predicate IsPlain(w: string) {
    w != "" && forall i | 0 <= i < |w| :: !IsBlank(w[i]) && !IsQuote(w[i]) && w[i] != '"'
  }

  lemma {:induction false} PlainIsClosed(w: string)
    requires IsPlain(w)
    ensures IsClosedWord(w)
  {
    if |w| > 1 {
      PlainIsClosed(w[1..]);
    }
  }

  lemma {:induction false} EscapedStaysQuoted(v: string)
    ensures Solid(Quoted('\''), EscapeValue(v) + "'") && After(Quoted('\''), EscapeValue(v) + "'") == Code
  {
    if v != "" {
      EscapedStaysQuoted(v[1..]);
      var tail := EscapeValue(v[1..]) + "'";
      var head := if v[0] == '\'' then "''" else [v[0]];
      assert EscapeValue(v) + "'" == head + tail;
      AfterAppend(Quoted('\''), head, tail);
      assert v[0] == '\'' ==> head[1..] == "'" && After(Quoted('\''), head) == After(Code, "'") == Quoted('\'');
    }
  }

  /** Whatever the value, its literal is a single word. */
  lemma LiteralIsClosed(v: string)
    ensures IsClosedWord(Literal(v))
  {
    var tail := EscapeValue(v) + "'";
    EscapedStaysQuoted(v);
    AfterAppend(Code, "'", tail);
    assert Solid(Code, "'") && After(Code, "'") == Quoted('\'');
    assert Literal(v) == "'" + tail;
  }

  predicate AllClosed(ws: seq<string>) { forall i | 0 <= i < |ws| :: IsClosedWord(ws[i]) }

  lemma CastWordsClosed(column: string)
    requires IsClosedWord(column)
    ensures AllClosed(OperandWords(column, true))
  {
    PlainIsClosed("CAST(");
    PlainIsClosed("AS");
    PlainIsClosed("CHAR(");
    PlainIsClosed("6");
    PlainIsClosed(")");
  }

  lemma CmpWordsClosed(c: Cmp)
    requires IsIdentifier(c.column)
    ensures AllClosed(CmpWords(c))
  {
    assert forall i | 0 <= i < |c.column| :: IsIdentifierChar(c.column[i]);
    PlainIsClosed(c.column);
    CastWordsClosed(c.column);
    PlainIsClosed(OpText(c.op));
    LiteralIsClosed(c.value);
  }

  lemma {:induction false} AndWordsClosed(t: seq<Cmp>)
    requires ValidTerm(t)
    ensures AllClosed(AndWords(t))
  {
    if t != [] {
      CmpWordsClosed(t[0]);
      AndWordsClosed(t[1..]);
      PlainIsClosed("AND");
    }
  }

  lemma TermWordsClosed(t: seq<Cmp>)
    requires ValidTerm(t) && t != []
    ensures AllClosed(TermWords(t))
  {
    if |t| == 1 {
      CmpWordsClosed(t[0]);
    } else {
      AndWordsClosed(t);
      PlainIsClosed("(");
      PlainIsClosed(")");
    }
  }

  lemma {:induction false} ConditionWordsClosed(c: Condition)
    requires forall i | 0 <= i < |c| :: c[i] != [] && ValidTerm(c[i])
    ensures AllClosed(ConditionWords(c))
  {
    if c != [] {
      TermWordsClosed(c[0]);
      ConditionWordsClosed(c[1..]);
      PlainIsClosed("OR");
    }
  }

  lemma {:induction false} OrderWordsClosed(keys: seq<string>)
    requires AllIdentifiers(keys)
    ensures AllClosed(OrderWords(keys))
  {
    if keys != [] {
      assert IsIdentifier(keys[0]) && forall i | 0 <= i < |keys[0]| :: IsIdentifierChar(keys[0][i]);
      PlainIsClosed(keys[0]);
      PlainIsClosed(keys[0] + ",");
      OrderWordsClosed(keys[1..]);
    }
  }

  lemma SelectWordsClosed(table: string)
    requires IsIdentifier(table)
    ensures AllClosed(["SELECT", "*", "FROM", table])
  {
    PlainIsClosed("SELECT");
    PlainIsClosed("*");
    PlainIsClosed("FROM");
    assert forall i | 0 <= i < |table| :: IsIdentifierChar(table[i]);
    PlainIsClosed(table);
  }

  lemma ClauseWordsClosed()
    ensures IsClosedWord("WHERE") && IsClosedWord("ORDER") && IsClosedWord("BY")
  {
    PlainIsClosed("WHERE");
    PlainIsClosed("ORDER");
    PlainIsClosed("BY");
  }

  lemma ClosedAppend(a: seq<string>, b: seq<string>)
    requires AllClosed(a) && AllClosed(b)
    ensures AllClosed(a + b)
  {}

  lemma StatementWordsClosed(table: string, allKeys: seq<string>, cond: Condition)
    requires IsIdentifier(table) && AllIdentifiers(allKeys)
    requires forall i | 0 <= i < |cond| :: cond[i] != [] && ValidTerm(cond[i])
    ensures AllClosed(StatementWords(table, allKeys, cond))
  {
    var head := ["SELECT", "*", "FROM", table];
    SelectWordsClosed(table);
    ClauseWordsClosed();
    ConditionWordsClosed(cond);
    ClosedAppend(["WHERE"], ConditionWords(cond));
    OrderWordsClosed(allKeys);
    ClosedAppend(["ORDER", "BY"], OrderWords(allKeys));
    ClosedAppend(head, WhereWords(cond));
    ClosedAppend(head + WhereWords(cond), OrderByWords(allKeys));
  }

  lemma LexOfStatement(table: string, allKeys: seq<string>, cond: Condition)
    requires IsIdentifier(table) && AllIdentifiers(allKeys) && (cond == [] || ValidCondition(cond))
    ensures Lex(StatementText(table, allKeys, cond)) == Lexed(StatementWords(table, allKeys, cond), false)
  {
    StatementTextIsJoin(table, allKeys, cond);
    StatementWordsClosed(table, allKeys, cond);
    LexOfJoin(StatementWords(table, allKeys, cond), false);
  }
}
