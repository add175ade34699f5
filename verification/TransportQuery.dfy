/** The query for one page of transport requests (adt/transport.go, adt/types.go): what it asks for,
    its text, and that the data preview reads the text as what was asked for. */
module TransportQuery {
  import opened Text
  import opened QueryWrap
  import opened AbapSql
  import opened DataPreview
  import opened SentText
  import opened Wrappers

  // ---------------------------------------------------------------------------
  // The cursor
  // ---------------------------------------------------------------------------

  /** transportCursor: the E070 sort key of the last request of a page. */
  datatype Cursor = Cursor(date: string, time: string, number: string)

  predicate AllDigits(s: string) { forall i | 0 <= i < |s| :: IsDigit(s[i]) }

  predicate IsNumberChar(c: char) { 'A' <= c <= 'Z' || IsDigit(c) || c == '_' || c == '/' || c == '-' }

  predicate IsRequestNumber(s: string) { 1 <= |s| <= 20 && forall i | 0 <= i < |s| :: IsNumberChar(s[i]) }

  predicate WellFormed(c: Cursor) {
    |c.date| == 8 && AllDigits(c.date) && |c.time| == 6 && AllDigits(c.time) && IsRequestNumber(c.number)
  }

  /** String. */
  function CursorText(c: Cursor): string { c.date + "." + c.time + "." + c.number }

  /** parseTransportCursor. */
  function ParseCursor(s: string): Option<Cursor> {
    if 17 <= |s| <= 36 && AllDigits(s[..8]) && s[8] == '.' && AllDigits(s[9..15]) && s[15] == '.'
       && IsRequestNumber(s[16..])
    then Some(Cursor(s[..8], s[9..15], s[16..]))
    else None
  }

  /** Parsing accepts exactly the printed well-formed cursors, and gives back what was printed. */
  lemma CursorRoundTrip(s: string, c: Cursor)
    ensures ParseCursor(s) == Some(c) <==> WellFormed(c) && s == CursorText(c)
  {
    if WellFormed(c) && s == CursorText(c) {
      assert s[..8] == c.date && s[8] == '.' && s[9..15] == c.time && s[15] == '.' && s[16..] == c.number;
    }
    if ParseCursor(s) == Some(c) {
      assert s == s[..8] + "." + s[9..15] + "." + s[16..];
    }
  }

  /** What is printed of a cursor that is not well-formed is refused. */
  lemma {:induction false} ParsedIsWellFormed(c: Cursor)
    ensures ParseCursor(CursorText(c)).Some? <==> WellFormed(c)
  {
    var s, d, t := CursorText(c), |c.date|, |c.date| + 1 + |c.time|;
    CursorRoundTrip(s, c);
    assert s[d] == '.' && s[t] == '.';
    if ParseCursor(s).Some? {
      assert forall k | 0 <= k < 8 :: s[..8][k] == s[k];
      assert forall k | 9 <= k < 15 :: s[9..15][k - 9] == s[k];
      assert forall k | 16 <= k < |s| :: s[16..][k - 16] == s[k];
      assert d == 8 && t == 15;
      assert s[..8] == c.date && s[9..15] == c.time && s[16..] == c.number;
    }
  }

  // ---------------------------------------------------------------------------
  // The WHERE clause
  // ---------------------------------------------------------------------------

  const TRKORR := "TRKORR"
  const AS4USER := "AS4USER"
  const TRSTATUS := "TRSTATUS"
  const AS4DATE := "AS4DATE"
  const AS4TIME := "AS4TIME"
  const STRKORR := "STRKORR"

  const SORT_KEYS: seq<string> := [AS4DATE, AS4TIME, TRKORR]

  function SortTypes(): map<string, string> { map[AS4TIME := DDIC_TYPE_TIMS] }

  function KeyOf(c: Cursor): (k: seq<string>)
    ensures |k| == 3
  {
    [c.date, c.time, c.number]
  }

  /** The descending three-key mirror of the pagination chain. */
  function CursorCondition(c: Cursor): Condition { Chain(SORT_KEYS, KeyOf(c), SortTypes(), Lt) }

  const TIME_TEXT := "CAST( AS4TIME AS CHAR( 6 ) )"

  function Comparison(operand: string, op: string, value: string): string { operand + op + value + "'" }

  /** condition: the text the program sends. */
  function CursorConditionText(c: Cursor): string {
    "( " + Comparison(AS4DATE, " < '", c.date)
    + " OR ( " + Comparison(AS4DATE, " = '", c.date) + " AND " + Comparison(TIME_TEXT, " < '", c.time) + " )"
    + " OR ( " + Comparison(AS4DATE, " = '", c.date) + " AND " + Comparison(TIME_TEXT, " = '", c.time)
    + " AND " + Comparison(TRKORR, " < '", c.number) + " ) )"
  }

  lemma UpperTims()
    ensures Upper(DDIC_TYPE_TIMS) == DDIC_TYPE_TIMS && Upper("") == ""
  {
    var s := DDIC_TYPE_TIMS;
    assert s[0] == 'T' && s[1..][0] == 'I' && s[2..][0] == 'M' && s[3..][0] == 'S';
    assert s[1..][1..] == s[2..] && s[2..][1..] == s[3..] && s[3..][1..] == "";
    assert Upper(s[3..]) == "S" && Upper(s[2..]) == "MS" && Upper(s[1..]) == "IMS";
  }

  lemma SortKeyTypes()
    ensures IsTims(AS4TIME, SortTypes()) && !IsTims(AS4DATE, SortTypes()) && !IsTims(TRKORR, SortTypes())
  {
    UpperTims();
    assert AS4DATE[3] != AS4TIME[3] && |TRKORR| != |AS4TIME|;
  }

  /** The text is that of the chain, in parentheses, for values without quotes. */
  lemma CursorConditionIsChain(c: Cursor)
    requires '\'' !in c.date && '\'' !in c.time && '\'' !in c.number
    ensures CursorConditionText(c) == "( " + ConditionText(CursorCondition(c)) + " )"
  {
    SortKeyTypes();
    QuoteFree(c.date);
    QuoteFree(c.time);
    QuoteFree(c.number);
    var chain := CursorCondition(c);
    var a, b, d := Comparison(AS4DATE, " < '", c.date), Comparison(AS4DATE, " = '", c.date),
                   Comparison(TIME_TEXT, " < '", c.time);
    var e, f := Comparison(TIME_TEXT, " = '", c.time), Comparison(TRKORR, " < '", c.number);
    ComparisonTexts(c);
    assert CmpTexts(chain[0]) == [a] && CmpTexts(chain[1]) == [b, d] && CmpTexts(chain[2]) == [b, e, f];
    JoinTwo(b, d, " AND ");
    JoinThree(b, e, f, " AND ");
    var t1, t2 := "( " + (b + " AND " + d) + " )", "( " + (b + " AND " + e + " AND " + f) + " )";
    assert TermTexts(chain) == [a, t1, t2];
    JoinThree(a, t1, t2, " OR ");
    ChainText(a, b, d, e, f);
  }

  lemma ComparisonText(column: string, cast: bool, op: Op, value: string)
    requires EscapeValue(value) == value
    ensures CmpText(Cmp(column, cast, op, value))
            == Comparison(OperandText(column, cast),
                          match op case Eq => " = '" case Gt => " > '" case Lt => " < '", value)
  {}

  lemma TimeOperand()
    ensures OperandText(AS4TIME, true) == TIME_TEXT
  {}

  lemma ComparisonTexts(c: Cursor)
    requires EscapeValue(c.date) == c.date && EscapeValue(c.time) == c.time && EscapeValue(c.number) == c.number
    ensures CmpText(Cmp(AS4DATE, false, Lt, c.date)) == Comparison(AS4DATE, " < '", c.date)
    ensures CmpText(Cmp(AS4DATE, false, Eq, c.date)) == Comparison(AS4DATE, " = '", c.date)
    ensures CmpText(Cmp(AS4TIME, true, Lt, c.time)) == Comparison(TIME_TEXT, " < '", c.time)
    ensures CmpText(Cmp(AS4TIME, true, Eq, c.time)) == Comparison(TIME_TEXT, " = '", c.time)
    ensures CmpText(Cmp(TRKORR, false, Lt, c.number)) == Comparison(TRKORR, " < '", c.number)
  {
    ComparisonText(AS4DATE, false, Lt, c.date);
    ComparisonText(AS4DATE, false, Eq, c.date);
    ComparisonText(AS4TIME, true, Lt, c.time);
    ComparisonText(AS4TIME, true, Eq, c.time);
    ComparisonText(TRKORR, false, Lt, c.number);
    TimeOperand();
  }

  lemma ChainText(a: string, b: string, d: string, e: string, f: string)
    ensures var t1, t2 := "( " + (b + " AND " + d) + " )", "( " + (b + " AND " + e + " AND " + f) + " )";
            "( " + (a + " OR " + t1 + " OR " + t2) + " )"
            == "( " + a + " OR ( " + b + " AND " + d + " )" + " OR ( " + b + " AND " + e + " AND " + f + " ) )"
  {
    assert " OR ( " == " OR " + "( " && " ) )" == " )" + " )";
  }

  /** The condition holds exactly of the rows whose sort key is strictly below the cursor. */
  lemma CursorMeansBelow(c: Cursor, row: map<string, string>, less: Order)
    requires AS4DATE in row && AS4TIME in row && TRKORR in row
    ensures Holds(CursorCondition(c), row, less) <==>
            LexLess([row[AS4DATE], row[AS4TIME], row[TRKORR]], KeyOf(c), less)
  {
    ChainMeansLexicographic(SORT_KEYS, KeyOf(c), SortTypes(), Lt, row, less);
    assert Project(row, SORT_KEYS) == [row[AS4DATE], row[AS4TIME], row[TRKORR]];
  }

  // ---------------------------------------------------------------------------
  // Status
  // ---------------------------------------------------------------------------

  datatype TransportState = Unknown | Modifiable | ReleaseInProgress | Released

  datatype Filter = All | OnlyModifiable | OnlyReleased

  const LETTERS: seq<string> := ["D", "L", "O", "R", "N"]

  /** TransportStateOf. */
  function StateOf(status: string): TransportState {
    if status == "D" || status == "L" then Modifiable
    else if status == "O" then ReleaseInProgress
    else if status == "R" || status == "N" then Released
    else Unknown
  }

  predicate Matches(filter: Filter, state: TransportState) {
    match filter
    case All => true
    case OnlyModifiable => state == Modifiable
    case OnlyReleased => state == Released
  }

  function LetterCondition(letter: string): seq<Cmp> { [Cmp(TRSTATUS, false, Eq, letter)] }

  /** The letters that pass, as alternatives. */
  function StatusCondition(filter: Filter, letters: seq<string>): Condition {
    if letters == [] then [] else
    (if Matches(filter, StateOf(letters[0])) then [LetterCondition(letters[0])] else [])
    + StatusCondition(filter, letters[1..])
  }

  lemma {:induction false} StatusConditionMeans(filter: Filter, letters: seq<string>, row: map<string, string>,
                                                less: Order)
    requires TRSTATUS in row
    ensures Holds(StatusCondition(filter, letters), row, less) <==>
            row[TRSTATUS] in letters && Matches(filter, StateOf(row[TRSTATUS]))
  {
    if letters != [] {
      var l, rest := letters[0], StatusCondition(filter, letters[1..]);
      StatusConditionMeans(filter, letters[1..], row, less);
      assert letters == [l] + letters[1..];
      if Matches(filter, StateOf(l)) {
        HoldsCons(LetterCondition(l), rest, row, less);
        assert TermHolds(LetterCondition(l), row, less) <==> CmpHolds(LetterCondition(l)[0], row, less);
      } else {
        assert [] + rest == rest;
      }
    }
  }

  lemma HoldsCons(term: seq<Cmp>, rest: Condition, row: map<string, string>, less: Order)
    ensures Holds([term] + rest, row, less) <==> TermHolds(term, row, less) || Holds(rest, row, less)
  {
    var cond := [term] + rest;
    if TermHolds(term, row, less) {
      assert TermHolds(cond[0], row, less);
    }
    if i :| 0 <= i < |rest| && TermHolds(rest[i], row, less) {
      assert TermHolds(cond[i + 1], row, less);
    }
    if i :| 0 <= i < |cond| && TermHolds(cond[i], row, less) {
      assert i > 0 ==> cond[i] == rest[i - 1];
    }
  }

  /** The statuses each filter lets pass. */
  lemma {:induction false} FilterPasses(status: string)
    ensures Matches(All, StateOf(status))
    ensures Matches(OnlyModifiable, StateOf(status)) <==> status in {"D", "L"}
    ensures Matches(OnlyReleased, StateOf(status)) <==> status in {"R", "N"}
    ensures StateOf(status) == ReleaseInProgress <==> status == "O"
  {}

  lemma PassingLettersAreKnown(filter: Filter, status: string)
    requires filter != All && Matches(filter, StateOf(status))
    ensures status in LETTERS
  {
    assert LETTERS[0] == "D" && LETTERS[1] == "L" && LETTERS[3] == "R" && LETTERS[4] == "N";
  }

  /** For every status text, also ones nobody has heard of, the condition agrees with the filter. */
  lemma StatusAgreesWithFilter(filter: Filter, row: map<string, string>, less: Order)
    requires filter != All && TRSTATUS in row
    ensures Holds(StatusCondition(filter, LETTERS), row, less) <==> Matches(filter, StateOf(row[TRSTATUS]))
  {
    StatusConditionMeans(filter, LETTERS, row, less);
    if Matches(filter, StateOf(row[TRSTATUS])) {
      PassingLettersAreKnown(filter, row[TRSTATUS]);
    }
  }

  /** transportStatusCondition. */
  method TransportStatusCondition(filter: Filter) returns (text: string)
    ensures text == if filter == All then "" else "( " + ConditionText(StatusCondition(filter, LETTERS)) + " )"
  {
    if filter == All {
      return "";
    }
    var terms := StatusTerms(filter, LETTERS);
    return "( " + Join(terms, " OR ") + " )";
  }

  method StatusTerms(filter: Filter, letters: seq<string>) returns (terms: seq<string>)
    requires forall l | l in letters :: l in LETTERS
    ensures terms == TermTexts(StatusCondition(filter, letters))
  {
    terms := [];
    ghost var all := TermTexts(StatusCondition(filter, letters));
    assert letters[0..] == letters;
    for i := 0 to |letters|
      invariant Printing(all, terms, filter, letters[i..])
    {
      assert letters[i..] == [letters[i]] + letters[i + 1..] && letters[i] in letters;
      StatusStep(all, terms, filter, letters[i], letters[i + 1..]);
      if Matches(filter, StateOf(letters[i])) {
        terms := terms + [Comparison(TRSTATUS, " = '", letters[i])];
      }
    }
  }

  /** The terms so far, and those of the letters that are left, are all. */
  ghost predicate Printing(all: seq<string>, terms: seq<string>, filter: Filter, left: seq<string>) {
    all == terms + TermTexts(StatusCondition(filter, left))
  }

  lemma StatusStep(all: seq<string>, terms: seq<string>, filter: Filter, letter: string, rest: seq<string>)
    requires Printing(all, terms, filter, [letter] + rest) && letter in LETTERS
    ensures Printing(all, if Matches(filter, StateOf(letter))
                          then terms + [Comparison(TRSTATUS, " = '", letter)] else terms, filter, rest)
  {
    StatusConditionCons(filter, letter, rest);
    if Matches(filter, StateOf(letter)) {
      LetterText(letter);
      TermTextsCons(LetterCondition(letter), StatusCondition(filter, rest));
      Regrouped(terms, Comparison(TRSTATUS, " = '", letter), TermTexts(StatusCondition(filter, rest)));
    }
  }

  lemma StatusConditionCons(filter: Filter, letter: string, rest: seq<string>)
    ensures StatusCondition(filter, [letter] + rest)
            == if Matches(filter, StateOf(letter)) then [LetterCondition(letter)] + StatusCondition(filter, rest)
               else StatusCondition(filter, rest)
  {
    assert ([letter] + rest)[1..] == rest;
  }

  lemma Regrouped<T>(a: seq<T>, x: T, b: seq<T>)
    ensures a + ([x] + b) == (a + [x]) + b
  {}

  lemma TermTextsCons(term: seq<Cmp>, rest: Condition)
    ensures TermTexts([term] + rest) == [TermText(term)] + TermTexts(rest)
  {}

  lemma LetterText(letter: string)
    requires letter in LETTERS
    ensures TermText(LetterCondition(letter)) == Comparison(TRSTATUS, " = '", letter)
  {
    assert |letter| == 1 && '\'' !in letter;
    QuoteFree(letter);
  }

  // ---------------------------------------------------------------------------
  // The WHERE clause
  // ---------------------------------------------------------------------------

  /** A part of the WHERE clause: a comparison, or alternatives in parentheses. */
  datatype Part = Single(cmp: Cmp) | Either(cond: Condition)

  predicate PartHolds(p: Part, row: map<string, string>, less: Order) {
    match p case Single(cmp) => CmpHolds(cmp, row, less) case Either(cond) => Holds(cond, row, less)
  }

  /** The parts, all of which have to hold. */
  function Where(user: string, filter: Filter, after: Option<Cursor>): seq<Part> {
    [Single(Cmp(STRKORR, false, Eq, ""))] + UserPart(user) + StatusPart(filter) + AfterPart(after)
  }

  function UserPart(user: string): seq<Part> { if user == "" then [] else [Single(Cmp(AS4USER, false, Eq, user))] }

  function StatusPart(filter: Filter): seq<Part> {
    if filter == All then [] else [Either(StatusCondition(filter, LETTERS))]
  }

  function AfterPart(after: Option<Cursor>): seq<Part> {
    if after.None? then [] else [Either(CursorCondition(after.value))]
  }

  function PartText(p: Part): string {
    match p case Single(cmp) => CmpText(cmp) case Either(cond) => "( " + ConditionText(cond) + " )"
  }

  function PartTexts(ps: seq<Part>): (ts: seq<string>)
    ensures |ts| == |ps| && forall i | 0 <= i < |ts| :: ts[i] == PartText(ps[i])
  {
    seq(|ps|, i requires 0 <= i < |ps| => PartText(ps[i]))
  }

  lemma PartTextsAppend(a: seq<Part>, b: seq<Part>)
    ensures PartTexts(a + b) == PartTexts(a) + PartTexts(b)
  {}

  predicate IsUserChar(c: char) { 'A' <= c <= 'Z' || 'a' <= c <= 'z' || IsDigit(c) || c == '_' || c == '.' || c == '-' }

  /** transportUserRe. */
  predicate IsUserName(s: string) { 1 <= |s| <= 40 && forall i | 0 <= i < |s| :: IsUserChar(s[i]) }

  /** The callers have checked the user and parsed the cursor. */
  predicate Checked(user: string, after: Option<Cursor>) {
    (user == "" || IsUserName(user)) && (after.Some? ==> WellFormed(after.value))
  }

  lemma EqText(column: string, value: string)
    requires '\'' !in value
    ensures CmpText(Cmp(column, false, Eq, value)) == Comparison(column, " = '", value)
  {
    QuoteFree(value);
  }

  method UserParts(user: string) returns (parts: seq<string>)
    requires user == "" || IsUserName(user)
    ensures parts == PartTexts([Single(Cmp(STRKORR, false, Eq, ""))] + UserPart(user))
  {
    EqText(STRKORR, "");
    EqText(AS4USER, user);
    parts := [Comparison(STRKORR, " = '", "")];
    if user != "" {
      parts := parts + [Comparison(AS4USER, " = '", user)];
    }
  }

  lemma WellFormedIsQuoteFree(c: Cursor)
    requires WellFormed(c)
    ensures '\'' !in c.date && '\'' !in c.time && '\'' !in c.number
  {}

  method AfterParts(after: Option<Cursor>) returns (parts: seq<string>)
    requires after.Some? ==> WellFormed(after.value)
    ensures parts == PartTexts(AfterPart(after))
  {
    parts := [];
    if after.Some? {
      WellFormedIsQuoteFree(after.value);
      CursorConditionIsChain(after.value);
      parts := [CursorConditionText(after.value)];
    }
  }

  method StatusParts(filter: Filter) returns (parts: seq<string>)
    ensures parts == PartTexts(StatusPart(filter))
  {
    var cond := TransportStatusCondition(filter);
    parts := if filter == All then [] else [cond];
  }

  method WhereParts(user: string, filter: Filter, after: Option<Cursor>) returns (where: seq<string>)
    requires Checked(user, after)
    ensures where == PartTexts(Where(user, filter, after))
  {
    where := UserParts(user);
    var status := StatusParts(filter);
    where := where + status;
    var cursor := AfterParts(after);
    where := where + cursor;
    ghost var first := [Single(Cmp(STRKORR, false, Eq, ""))] + UserPart(user);
    PartTextsAppend(first, StatusPart(filter));
    PartTextsAppend(first + StatusPart(filter), AfterPart(after));
  }

  const SELECT_FROM := "SELECT TRKORR, " + ("AS4USER, TRSTATUS, " + ("AS4DATE, AS4TIME " + "FROM E070 WHERE "))
  const ORDER_BY := " ORDER BY " + ("AS4DATE DESCENDING, " + ("AS4TIME DESCENDING, " + "TRKORR DESCENDING"))

  function QueryText(where: seq<Part>): string { SELECT_FROM + Join(PartTexts(where), " AND ") + ORDER_BY }

  /** The query of getTransportRequestsViaQuery. Its words are read back as what was asked for. */
  method E070Query(user: string, filter: Filter, after: Option<Cursor>) returns (query: string)
    requires Checked(user, after)
    ensures query == QueryText(Where(user, filter, after))
    ensures ReadQuery(Lex(query).words) == Some(Where(user, filter, after))
  {
    var where := WhereParts(user, filter, after);
    query := SELECT_FROM + Join(where, " AND ") + ORDER_BY;
    LexOfQuery(user, filter, after);
  }

  // ---------------------------------------------------------------------------
  // Reading the query
  // ---------------------------------------------------------------------------

  const SELECT_WORDS := ["SELECT", "TRKORR,", "AS4USER,", "TRSTATUS,", "AS4DATE,", "AS4TIME", "FROM", "E070", "WHERE"]
  const ORDER_WORDS := ["ORDER", "BY", "AS4DATE", "DESCENDING,", "AS4TIME", "DESCENDING,", "TRKORR", "DESCENDING"]

  function ReadPart(ws: seq<string>): (r: Option<(Part, seq<string>)>)
    ensures r.Some? ==> |r.value.1| < |ws|
  {
    if ws != [] && ws[0] == "(" then
      (match ReadCondition(ws[1..])
       case None => None
       case Some((cond, rest)) => if rest == [] || rest[0] != ")" then None else Some((Either(cond), rest[1..])))
    else
      match ReadCmp(ws) case None => None case Some((cmp, rest)) => Some((Single(cmp), rest))
  }

  /** Parts joined by AND: alternatives outside parentheses are not among them. */
  function ReadParts(ws: seq<string>): Option<(seq<Part>, seq<string>)>
    decreases |ws|
  {
    match ReadPart(ws)
    case None => None
    case Some((p, rest)) =>
      if rest == [] || rest[0] != "AND" then Some(([p], rest)) else
      match ReadParts(rest[1..])
      case None => None
      case Some((ps, rest')) => Some(([p] + ps, rest'))
  }

  /** The query as a whole, with exactly these columns, this table and this order. */
  function ReadQuery(ws: seq<string>): Option<seq<Part>> {
    if !(SELECT_WORDS <= ws) then None else
    match ReadParts(ws[|SELECT_WORDS|..])
    case None => None
    case Some((where, rest)) => if rest == ORDER_WORDS then Some(where) else None
  }

  predicate ValidPart(p: Part) {
    match p case Single(cmp) => IsIdentifier(cmp.column) case Either(cond) => ValidCondition(cond)
  }

  predicate ValidParts(ps: seq<Part>) { ps != [] && forall i | 0 <= i < |ps| :: ValidPart(ps[i]) }

  function PartWords(p: Part): seq<string> {
    match p case Single(cmp) => CmpWords(cmp) case Either(cond) => ["("] + ConditionWords(cond) + [")"]
  }

  function PartsWords(ps: seq<Part>): seq<string> {
    if ps == [] then [] else PartWords(ps[0]) + (if |ps| == 1 then [] else ["AND"] + PartsWords(ps[1..]))
  }

  function QueryWords(where: seq<Part>): seq<string> { SELECT_WORDS + PartsWords(where) + ORDER_WORDS }

  lemma ReadPartBack(p: Part, rest: seq<string>)
    requires ValidPart(p)
    ensures ReadPart(PartWords(p) + rest) == Some((p, rest))
  {
    match p
    case Single(cmp) =>
      ReadCmpBack(cmp, rest);
      CmpBegins(cmp, rest);
    case Either(cond) =>
      ReadConditionBack(cond, [")"] + rest);
      ReadEither(ConditionWords(cond), cond, rest);
  }

  lemma CmpBegins(cmp: Cmp, rest: seq<string>)
    requires IsIdentifier(cmp.column)
    ensures (CmpWords(cmp) + rest)[0] != "("
  {
    assert IsIdentifierChar(cmp.column[0]);
    assert (CmpWords(cmp) + rest)[0] == if cmp.cast then "CAST(" else cmp.column;
  }

  lemma ReadEither(inner: seq<string>, cond: Condition, rest: seq<string>)
    requires ReadCondition(inner + ([")"] + rest)) == Some((cond, [")"] + rest))
    ensures ReadPart(["("] + inner + [")"] + rest) == Some((Either(cond), rest))
  {
    Enclosed("(", inner, ")", rest);
  }

  lemma {:induction false} ReadPartsBack(ps: seq<Part>, rest: seq<string>)
    requires ValidParts(ps) && (rest == [] || rest[0] != "AND")
    ensures ReadParts(PartsWords(ps) + rest) == Some((ps, rest))
    decreases |ps|
  {
    if |ps| == 1 {
      ReadLastPart(ps[0], rest);
      assert [ps[0]] == ps;
    } else {
      ReadPartsBack(ps[1..], rest);
      ReadMoreParts(ps[0], PartsWords(ps[1..]), ps[1..], rest);
      assert ps == [ps[0]] + ps[1..];
    }
  }

  lemma {:induction false} ReadLastPart(p: Part, rest: seq<string>)
    requires ValidPart(p) && (rest == [] || rest[0] != "AND")
    ensures ReadParts(PartsWords([p]) + rest) == Some(([p], rest))
  {
    ReadPartBack(p, rest);
    assert PartsWords([p]) == PartWords(p);
  }

  lemma {:induction false} ReadMoreParts(p: Part, words: seq<string>, ps: seq<Part>, rest: seq<string>)
    requires ValidPart(p) && ReadParts(words + rest) == Some((ps, rest))
    ensures ReadParts(PartWords(p) + (["AND"] + words) + rest) == Some(([p] + ps, rest))
  {
    var more := ["AND"] + (words + rest);
    ReadPartBack(p, more);
    KeywordBetween(PartWords(p), "AND", words, rest);
    ReadPartsStep(PartWords(p) + more, p, more, ps, rest);
  }

  lemma ReadPartsStep(ws: seq<string>, p: Part, more: seq<string>, ps: seq<Part>, rest: seq<string>)
    requires ReadPart(ws) == Some((p, more)) && more != [] && more[0] == "AND"
    requires ReadParts(more[1..]) == Some((ps, rest))
    ensures ReadParts(ws) == Some(([p] + ps, rest))
  {}

  lemma ReadQueryBack(where: seq<Part>)
    requires ValidParts(where)
    ensures ReadQuery(QueryWords(where)) == Some(where)
  {
    OrderIsNotAnd();
    ReadPartsBack(where, ORDER_WORDS);
    ReadClauses(SELECT_WORDS, PartsWords(where), ORDER_WORDS, where);
  }

  lemma OrderIsNotAnd()
    ensures ORDER_WORDS != [] && ORDER_WORDS[0] != "AND"
  {
    assert |"ORDER"| != |"AND"|;
  }

  lemma ReadClauses(head: seq<string>, middle: seq<string>, tail: seq<string>, where: seq<Part>)
    requires head == SELECT_WORDS && tail == ORDER_WORDS && ReadParts(middle + tail) == Some((where, tail))
    ensures ReadQuery(head + middle + tail) == Some(where)
  {
    assert (head + middle + tail)[|head|..] == middle + tail;
  }

  // ---------------------------------------------------------------------------
  // The words of the text
  // ---------------------------------------------------------------------------

  lemma PartTextIsJoin(p: Part)
    requires ValidPart(p)
    ensures PartText(p) == Join(PartWords(p), " ") && PartWords(p) != []
  {
    match p
    case Single(cmp) => CmpTextIsJoin(cmp);
    case Either(cond) =>
      ConditionTextIsJoin(cond);
      JoinParenthesised(ConditionWords(cond));
  }

  lemma {:induction false} PartTextsAreJoin(ps: seq<Part>)
    requires ValidParts(ps)
    ensures Join(PartTexts(ps), " AND ") == Join(PartsWords(ps), " ") && PartsWords(ps) != []
  {
    PartTextIsJoin(ps[0]);
    if |ps| > 1 {
      PartTextsAreJoin(ps[1..]);
      OneMorePart(ps[0], ps[1..]);
      assert ps == [ps[0]] + ps[1..];
    } else {
      OnePartIsJoin(ps[0]);
      assert ps == [ps[0]];
    }
  }

  lemma {:induction false} OneMorePart(p: Part, ps: seq<Part>)
    requires PartText(p) == Join(PartWords(p), " ") && PartWords(p) != [] && ps != []
    requires Join(PartTexts(ps), " AND ") == Join(PartsWords(ps), " ") && PartsWords(ps) != []
    ensures Join(PartTexts([p] + ps), " AND ") == Join(PartsWords([p] + ps), " ") && PartsWords([p] + ps) != []
  {
    PartTextsCons(p, ps);
    JoinWithAnd(PartText(p), PartTexts(ps), PartWords(p), PartsWords(ps));
    assert ([p] + ps)[1..] == ps;
  }

  lemma PartTextsCons(p: Part, ps: seq<Part>)
    ensures PartTexts([p] + ps) == [PartText(p)] + PartTexts(ps)
  {}

  lemma OnePartIsJoin(p: Part)
    ensures Join(PartTexts([p]), " AND ") == PartText(p) && PartsWords([p]) == PartWords(p)
  {}

  lemma JoinWithAnd(text: string, texts: seq<string>, words: seq<string>, more: seq<string>)
    requires texts != [] && words != [] && more != []
    requires text == Join(words, " ") && Join(texts, " AND ") == Join(more, " ")
    ensures Join([text] + texts, " AND ") == Join(words + (["AND"] + more), " ")
  {
    JoinCons(text, texts, " AND ");
    JoinWithKeyword(words, "AND", more);
    assert " " + "AND" + " " == " AND ";
  }

  lemma JoinFourClauses(a: seq<string>, b: seq<string>, c: seq<string>, d: seq<string>)
    requires a != [] && b != [] && c != [] && d != []
    ensures Join(a + (b + (c + d)), " ")
            == Join(a, " ") + " " + (Join(b, " ") + " " + (Join(c, " ") + " " + Join(d, " ")))
  {
    JoinAppend(c, d, " ");
    JoinAppend(b, c + d, " ");
    JoinAppend(a, b + (c + d), " ");
  }

  lemma Pieces(a: string, b: string, c: string, d: string)
    ensures a + " " + (b + " " + (c + " " + d)) + " " == (a + " ") + ((b + " ") + ((c + " ") + (d + " ")))
    ensures " " + (a + " " + (b + " " + (c + " " + d))) == (" " + a + " ") + ((b + " ") + ((c + " ") + d))
  {}

  lemma SelectFromIsJoin()
    ensures SELECT_FROM == Join(SELECT_WORDS, " ") + " "
  {
    var a, b, c, d := ["SELECT", "TRKORR,"], ["AS4USER,", "TRSTATUS,"], ["AS4DATE,", "AS4TIME"],
                      ["FROM", "E070", "WHERE"];
    JoinFourClauses(a, b, c, d);
    SelectPieces();
    Pieces(Join(a, " "), Join(b, " "), Join(c, " "), Join(d, " "));
    assert SELECT_WORDS == a + (b + (c + d));
  }

  lemma SelectPieces()
    ensures Join(["SELECT", "TRKORR,"], " ") + " " == "SELECT TRKORR, "
    ensures Join(["AS4USER,", "TRSTATUS,"], " ") + " " == "AS4USER, TRSTATUS, "
    ensures Join(["AS4DATE,", "AS4TIME"], " ") + " " == "AS4DATE, AS4TIME "
    ensures Join(["FROM", "E070", "WHERE"], " ") + " " == "FROM E070 WHERE "
  {
    JoinTwo("SELECT", "TRKORR,", " ");
    JoinTwo("AS4USER,", "TRSTATUS,", " ");
    JoinTwo("AS4DATE,", "AS4TIME", " ");
    JoinThree("FROM", "E070", "WHERE", " ");
  }

  lemma OrderByIsJoin()
    ensures ORDER_BY == " " + Join(ORDER_WORDS, " ")
  {
    var a, b, c, d := ["ORDER", "BY"], ["AS4DATE", "DESCENDING,"], ["AS4TIME", "DESCENDING,"], ["TRKORR", "DESCENDING"];
    JoinFourClauses(a, b, c, d);
    OrderPieces();
    Pieces(Join(a, " "), Join(b, " "), Join(c, " "), Join(d, " "));
    assert ORDER_WORDS == a + (b + (c + d));
  }

  lemma OrderPieces()
    ensures " " + Join(["ORDER", "BY"], " ") + " " == " ORDER BY "
    ensures Join(["AS4DATE", "DESCENDING,"], " ") + " " == "AS4DATE DESCENDING, "
    ensures Join(["AS4TIME", "DESCENDING,"], " ") + " " == "AS4TIME DESCENDING, "
    ensures Join(["TRKORR", "DESCENDING"], " ") == "TRKORR DESCENDING"
  {
    JoinTwo("ORDER", "BY", " ");
    JoinTwo("AS4DATE", "DESCENDING,", " ");
    JoinTwo("AS4TIME", "DESCENDING,", " ");
    JoinTwo("TRKORR", "DESCENDING", " ");
  }

  lemma QueryTextIsJoin(where: seq<Part>)
    requires ValidParts(where)
    ensures QueryText(where) == Join(QueryWords(where), " ")
  {
    SelectFromIsJoin();
    OrderByIsJoin();
    PartTextsAreJoin(where);
    JoinThreeClauses(SELECT_WORDS, PartsWords(where), ORDER_WORDS);
  }

  lemma JoinThreeClauses(a: seq<string>, b: seq<string>, c: seq<string>)
    requires a != [] && b != [] && c != []
    ensures Join(a, " ") + " " + Join(b, " ") + (" " + Join(c, " ")) == Join(a + b + c, " ")
  {
    JoinAppend(a, b, " ");
    JoinAppend(a + b, c, " ");
  }

  // ---------------------------------------------------------------------------
  // The query is sent, and read
  // ---------------------------------------------------------------------------

  /** A closed word that fits on a line, with nothing RunQuery or the data preview stumbles over. */
  predicate IsGood(w: string) {
    IsClosedWord(w) && !Starred(w) && !IsSpace(w[|w| - 1]) && |w| <= MAX_WORD && ';' !in w && '\n' !in w
  }

  predicate AllGood(ws: seq<string>) { forall i | 0 <= i < |ws| :: IsGood(ws[i]) }

  lemma GoodAppend(a: seq<string>, b: seq<string>)
    requires AllGood(a) && AllGood(b)
    ensures AllGood(a + b)
  {}

  /** A character of a name, a keyword or an operator. */
  predicate IsWordChar(c: char) {
    IsIdentifierChar(c) || c == ',' || c == '(' || c == ')' || c == '=' || c == '<' || c == '>'
  }

  predicate IsWord(w: string) { 0 < |w| <= 40 && forall i | 0 <= i < |w| :: IsWordChar(w[i]) }

  predicate AreWords(ws: seq<string>) { forall i | 0 <= i < |ws| :: IsWord(ws[i]) }

  lemma WordIsGood(w: string)
    requires IsWord(w)
    ensures IsGood(w)
  {
    assert IsWordChar(w[0]) && IsWordChar(w[|w| - 1]);
    PlainIsClosed(w);
  }

  lemma WordsAreGood(ws: seq<string>)
    requires AreWords(ws)
    ensures AllGood(ws)
  {
    forall i | 0 <= i < |ws| ensures IsGood(ws[i]) {
      WordIsGood(ws[i]);
    }
  }

  /** What user names, status letters and sort keys are made of. */
  predicate IsPlainValue(v: string) { |v| <= 40 && '\'' !in v && ';' !in v && '\n' !in v }

  predicate IsPlainCmp(c: Cmp) { IsIdentifier(c.column) && |c.column| <= 40 && IsPlainValue(c.value) }

  predicate IsPlainTerm(t: seq<Cmp>) { t != [] && forall i | 0 <= i < |t| :: IsPlainCmp(t[i]) }

  predicate IsPlainCondition(c: Condition) { c != [] && forall i | 0 <= i < |c| :: IsPlainTerm(c[i]) }

  predicate IsPlainPart(p: Part) {
    match p case Single(cmp) => IsPlainCmp(cmp) case Either(cond) => IsPlainCondition(cond)
  }

  predicate ArePlain(ps: seq<Part>) { forall i | 0 <= i < |ps| :: IsPlainPart(ps[i]) }

  lemma LiteralIsGood(v: string)
    requires IsPlainValue(v)
    ensures IsGood(Literal(v))
  {
    LiteralIsClosed(v);
    QuoteFree(v);
  }

  lemma OperandIsGood(column: string, cast: bool)
    requires IsIdentifier(column) && |column| <= 40
    ensures AllGood(OperandWords(column, cast))
  {
    assert IsWord(column);
    assert IsWord("CAST(") && IsWord("AS") && IsWord("CHAR(") && IsWord("6") && IsWord(")");
    WordsAreGood(OperandWords(column, cast));
  }

  lemma CmpWordsGood(c: Cmp)
    requires IsPlainCmp(c)
    ensures AllGood(CmpWords(c))
  {
    OperandIsGood(c.column, c.cast);
    LiteralIsGood(c.value);
    WordIsGood(OpText(c.op));
    GoodAppend(OperandWords(c.column, c.cast), [OpText(c.op), Literal(c.value)]);
  }

  lemma GoodJoined(a: seq<string>, keyword: string, b: seq<string>)
    requires AllGood(a) && AllGood(b) && IsWord(keyword)
    ensures AllGood(a + ([keyword] + b))
  {
    WordIsGood(keyword);
  }

  lemma GoodEnclosed(ws: seq<string>)
    requires AllGood(ws)
    ensures AllGood(["("] + ws + [")"])
  {
    WordIsGood("(");
    WordIsGood(")");
    GoodAppend(["("], ws);
    GoodAppend(["("] + ws, [")"]);
  }

  lemma {:induction false} AndWordsGood(t: seq<Cmp>)
    requires forall i | 0 <= i < |t| :: IsPlainCmp(t[i])
    ensures AllGood(AndWords(t))
  {
    if t != [] {
      CmpWordsGood(t[0]);
      AndWordsGood(t[1..]);
      GoodJoined(CmpWords(t[0]), "AND", AndWords(t[1..]));
      GoodAppend(CmpWords(t[0]), []);
    }
  }

  lemma TermWordsGood(t: seq<Cmp>)
    requires IsPlainTerm(t)
    ensures AllGood(TermWords(t))
  {
    CmpWordsGood(t[0]);
    AndWordsGood(t);
    GoodEnclosed(AndWords(t));
  }

  lemma {:induction false} ConditionWordsGood(c: Condition)
    requires forall i | 0 <= i < |c| :: IsPlainTerm(c[i])
    ensures AllGood(ConditionWords(c))
  {
    if c != [] {
      TermWordsGood(c[0]);
      ConditionWordsGood(c[1..]);
      GoodJoined(TermWords(c[0]), "OR", ConditionWords(c[1..]));
      GoodAppend(TermWords(c[0]), []);
    }
  }

  lemma PartWordsGood(p: Part)
    requires IsPlainPart(p)
    ensures AllGood(PartWords(p))
  {
    match p
    case Single(cmp) => CmpWordsGood(cmp);
    case Either(cond) =>
      ConditionWordsGood(cond);
      GoodEnclosed(ConditionWords(cond));
  }

  lemma {:induction false} PartsWordsGood(ps: seq<Part>)
    requires ArePlain(ps)
    ensures AllGood(PartsWords(ps))
  {
    if ps != [] {
      PartWordsGood(ps[0]);
      PartsWordsGood(ps[1..]);
      GoodJoined(PartWords(ps[0]), "AND", PartsWords(ps[1..]));
      GoodAppend(PartWords(ps[0]), []);
    }
  }

  lemma FixedWordsGood()
    ensures AllGood(SELECT_WORDS) && AllGood(ORDER_WORDS)
  {
    SelectWordsAreWords();
    OrderWordsAreWords();
    WordsAreGood(SELECT_WORDS);
    WordsAreGood(ORDER_WORDS);
  }

  lemma SelectWordsAreWords()
    ensures AreWords(SELECT_WORDS)
  {}

  lemma OrderWordsAreWords()
    ensures AreWords(ORDER_WORDS)
  {}

  lemma QueryWordsGood(where: seq<Part>)
    requires ArePlain(where)
    ensures AllGood(QueryWords(where))
  {
    FixedWordsGood();
    PartsWordsGood(where);
    GoodAppend(SELECT_WORDS, PartsWords(where));
    GoodAppend(SELECT_WORDS + PartsWords(where), ORDER_WORDS);
  }

  lemma {:induction false} UnitsOfUnstarred(ws: seq<string>)
    requires forall i | 0 <= i < |ws| :: !Starred(ws[i])
    ensures Texts(Group(ws)) == ws
  {
    if ws != [] {
      var n := |ws| - 1;
      UnitsOfUnstarred(ws[..n]);
      OneMoreUnit(ws, n);
    }
  }

  lemma {:induction false} OneMoreUnit(ws: seq<string>, n: nat)
    requires n == |ws| - 1 && Texts(Group(ws[..n])) == ws[..n] && !Starred(ws[n])
    ensures Texts(Group(ws)) == ws
  {
    TextsStep(ws, n);
    assert ws[..n + 1] == ws && ws == ws[..n] + [ws[n]];
  }

  /** A statement of good words is sent, and its words arrive. */
  lemma {:induction false} GoodWordsArrive(ws: seq<string>, rows: nat, s4: bool)
    requires |ws| > 1 && ws[0] == "SELECT" && AllGood(ws) && rows > 0
    ensures var sql := Join(ws, " ");
            && Lex(sql) == Lexed(ws, false) && Submitted(sql, rows).Some?
            && Submitted(sql, rows).value.rows == rows && LiveWords(Submitted(sql, rows).value.text, s4) == ws
  {
    var sql, tail := Join(ws, " "), Join(ws[1..], " ");
    JoinEnds(ws[1..]);
    BeginsWithKeyword(tail);
    InJoin(ws, ';');
    InJoin(ws, '\n');
    assert sql == "SELECT" + (" " + tail);
    LexOfJoin(ws, false);
    UnitsOfUnstarred(ws);
    WrapFailsExactly(sql);
    OneLineIsSent(sql, ws, rows, s4);
  }

  lemma {:induction false} BeginsWithKeyword(tail: string)
    requires tail != "" && !IsSpace(tail[|tail| - 1])
    ensures var sql := "SELECT" + (" " + tail);
            TrimSpace(sql) == sql && BeginsLive(sql) && TrimSuffixCR(sql) == sql
            && (IsSingleSelect(sql) <==> ';' !in sql)
  {
    var rest := " " + tail;
    SelectIsSubmitted(rest);
    assert rest[|rest| - 1] == tail[|tail| - 1] && IsSpace('\r');
  }

  lemma {:induction false} StatusConditionPlain(filter: Filter, letters: seq<string>)
    requires forall l | l in letters :: l in LETTERS
    ensures forall i | 0 <= i < |StatusCondition(filter, letters)| :: IsPlainTerm(StatusCondition(filter, letters)[i])
    ensures (exists l :: l in letters && Matches(filter, StateOf(l))) ==> StatusCondition(filter, letters) != []
  {
    if letters != [] {
      StatusConditionPlain(filter, letters[1..]);
      assert letters == [letters[0]] + letters[1..] && letters[0] in letters;
      LetterIsPlain(letters[0]);
    }
  }

  lemma LetterIsPlain(letter: string)
    requires letter in LETTERS
    ensures IsPlainTerm(LetterCondition(letter))
  {
    assert |letter| == 1 && letter[0] in "DLORN";
  }

  lemma StatusPartPlain(filter: Filter)
    ensures ArePlain(StatusPart(filter))
  {
    StatusConditionPlain(filter, LETTERS);
    assert LETTERS[0] == "D" && LETTERS[3] == "R";
    assert filter != All ==> exists l :: l in LETTERS && Matches(filter, StateOf(l)) by {
      assert Matches(OnlyModifiable, StateOf("D")) && Matches(OnlyReleased, StateOf("R"));
    }
  }

  lemma AfterPartPlain(after: Option<Cursor>)
    requires after.Some? ==> WellFormed(after.value)
    ensures ArePlain(AfterPart(after))
  {
    if after.Some? {
      var c, cond := after.value, CursorCondition(after.value);
      assert IsPlainValue(c.date) && IsPlainValue(c.time) && IsPlainValue(c.number);
      SortKeysAreNames();
      forall i, j | 0 <= i < |cond| && 0 <= j < |cond[i]| ensures IsPlainCmp(cond[i][j]) {
        assert cond[i][j].column == SORT_KEYS[j] && cond[i][j].value == KeyOf(c)[j];
      }
    }
  }

  lemma SortKeysAreNames()
    ensures IsIdentifier(AS4DATE) && IsIdentifier(AS4TIME) && IsIdentifier(TRKORR) && IsIdentifier(AS4USER)
            && IsIdentifier(STRKORR)
  {}

  lemma PlainAppend(a: seq<Part>, b: seq<Part>)
    requires ArePlain(a) && ArePlain(b)
    ensures ArePlain(a + b)
  {}

  lemma UserPartPlain(user: string)
    requires user == "" || IsUserName(user)
    ensures ArePlain([Single(Cmp(STRKORR, false, Eq, ""))]) && ArePlain(UserPart(user))
  {
    SortKeysAreNames();
    assert user != "" ==> IsPlainValue(user);
  }

  lemma WhereIsPlain(user: string, filter: Filter, after: Option<Cursor>)
    requires Checked(user, after)
    ensures ArePlain(Where(user, filter, after)) && ValidParts(Where(user, filter, after))
  {
    var where, user' := Where(user, filter, after), UserPart(user);
    StatusPartPlain(filter);
    AfterPartPlain(after);
    UserPartPlain(user);
    PlainAppend([Single(Cmp(STRKORR, false, Eq, ""))], user');
    PlainAppend([Single(Cmp(STRKORR, false, Eq, ""))] + user', StatusPart(filter));
    PlainAppend([Single(Cmp(STRKORR, false, Eq, ""))] + user' + StatusPart(filter), AfterPart(after));
    forall i | 0 <= i < |where| ensures ValidPart(where[i]) {
      PlainIsValid(where[i]);
    }
  }

  lemma PlainIsValid(p: Part)
    requires IsPlainPart(p)
    ensures ValidPart(p)
  {}

  lemma LexOfQuery(user: string, filter: Filter, after: Option<Cursor>)
    requires Checked(user, after)
    ensures ReadQuery(Lex(QueryText(Where(user, filter, after))).words) == Some(Where(user, filter, after))
  {
    var where := Where(user, filter, after);
    WhereIsPlain(user, filter, after);
    QueryTextIsJoin(where);
    QueryWordsGood(where);
    GoodWordsArrive(QueryWords(where), 1, false);
    ReadQueryBack(where);
  }

  /** What the data preview reads. */
  function Received(request: PreviewRequest, s4: bool): Option<seq<Part>> { ReadQuery(LiveWords(request.text, s4)) }

  /** The main result: whatever user, filter and cursor, the query is sent, and read as what was asked
      for, on either reading of comments. */
  lemma QueryArrives(user: string, filter: Filter, after: Option<Cursor>, rows: nat, s4: bool)
    requires Checked(user, after) && rows > 0
    ensures var request := Submitted(QueryText(Where(user, filter, after)), rows);
            && request.Some? && request.value.rows == rows && !HasLongLine(request.value.text)
            && Received(request.value, s4) == Some(Where(user, filter, after))
  {
    var where := Where(user, filter, after);
    WhereIsPlain(user, filter, after);
    QueryTextIsJoin(where);
    QueryWordsGood(where);
    GoodWordsArrive(QueryWords(where), rows, s4);
    SentHasNoLongLine(QueryText(where), rows);
    ReadQueryBack(where);
  }
}
