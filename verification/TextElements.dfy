/** The plain-text form of text elements (adt/textelements.go). */
module TextElements {
  import opened Text
  import opened Wrappers

  /** A Go int on a 64-bit platform. */
  type Int64 = x: int | -0x8000_0000_0000_0000 <= x < 0x8000_0000_0000_0000

  datatype TextSymbol = TextSymbol(key: string, text: string, maxLength: Int64)

  datatype SelectionText = SelectionText(name: string, text: string)

  // ---------------------------------------------------------------------------
  // Strings
  // ---------------------------------------------------------------------------

  predicate IsTrimmed(s: string) { s == "" || (!IsSpace(s[0]) && !IsSpace(s[|s| - 1])) }

  /** strings.TrimRight(line, "\r"). */
  function TrimCR(s: string): string { if s != "" && s[|s| - 1] == '\r' then TrimCR(s[..|s| - 1]) else s }

  predicate EndsInCR(s: string) { s != "" && s[|s| - 1] == '\r' }

  predicate HasPrefix(s: string, prefix: string) { |prefix| <= |s| && s[..|prefix|] == prefix }

  /** strings.Index for one character; the length of s stands for -1. */
  function IndexOf(s: string, c: char): (i: nat)
    ensures i <= |s| && c !in s[..i] && (i < |s| ==> s[i] == c)
  {
    if s == "" || s[0] == c then 0 else 1 + IndexOf(s[1..], c)
  }

  lemma {:induction false} IndexOfFirst(a: string, c: char, b: string)
    requires c !in a
    ensures IndexOf(a + [c] + b, c) == |a|
  {
    var s := a + [c] + b;
    if a == "" {
      assert s[0] == c;
    } else {
      IndexOfFirst(a[1..], c, b);
      assert s[0] == a[0] && s[1..] == a[1..] + [c] + b;
    }
  }

  lemma {:induction false} TrimLeftTrimmed(s: string)
    ensures TrimSpaceLeft(s) == "" || !IsSpace(TrimSpaceLeft(s)[0])
    ensures |TrimSpaceLeft(s)| <= |s| && TrimSpaceLeft(s) == s[|s| - |TrimSpaceLeft(s)|..]
  {
    if s != "" && IsSpace(s[0]) {
      TrimLeftTrimmed(s[1..]);
    }
  }

  lemma {:induction false} TrimRightTrimmed(s: string)
    ensures TrimSpaceRight(s) == "" || !IsSpace(TrimSpaceRight(s)[|TrimSpaceRight(s)| - 1])
    ensures |TrimSpaceRight(s)| <= |s| && TrimSpaceRight(s) == s[..|TrimSpaceRight(s)|]
  {
    if s != "" && IsSpace(s[|s| - 1]) {
      TrimRightTrimmed(s[..|s| - 1]);
    }
  }

  /** What trimming gives is trimmed, and part of s. */
  lemma TrimSpaceTrims(s: string)
    ensures IsTrimmed(TrimSpace(s)) && forall c | c in TrimSpace(s) :: c in s
  {
    TrimLeftTrimmed(s);
    TrimRightTrimmed(TrimSpaceLeft(s));
  }

  lemma {:induction false} TrimPadded(s: string, n: nat)
    requires IsTrimmed(s)
    ensures TrimSpace(s + Spaces(n)) == s
  {
    if s == "" {
      TrimSpaces(n);
      assert s + Spaces(n) == Spaces(n);
    } else {
      assert TrimSpaceLeft(s + Spaces(n)) == s + Spaces(n);
      TrimRightSpaces(s, n);
    }
  }

  function Spaces(n: nat): (r: string)
    ensures |r| == n
  {
    if n == 0 then "" else Spaces(n - 1) + " "
  }

  lemma {:induction false} TrimRightSpaces(s: string, n: nat)
    requires s == "" || !IsSpace(s[|s| - 1])
    ensures TrimSpaceRight(s + Spaces(n)) == s
  {
    if n > 0 {
      TrimRightSpaces(s, n - 1);
      assert (s + Spaces(n))[..|s| + n - 1] == s + Spaces(n - 1);
    } else {
      assert s + Spaces(0) == s;
    }
  }

  lemma {:induction false} TrimSpaces(n: nat)
    ensures TrimSpace(Spaces(n)) == ""
  {
    if n > 0 {
      TrimLeftSpaces(n);
    }
  }

  lemma {:induction false} TrimLeftSpaces(n: nat)
    ensures TrimSpaceLeft(Spaces(n)) == ""
  {
    if n > 0 {
      TrimLeftSpaces(n - 1);
      SpacesTail(n);
    }
  }

  lemma {:induction false} SpacesTail(n: nat)
    requires n > 0
    ensures Spaces(n)[0] == ' ' && Spaces(n)[1..] == Spaces(n - 1)
  {
    if n > 1 {
      SpacesTail(n - 1);
    }
  }

  lemma {:induction false} TrimCRTrims(s: string)
    ensures !EndsInCR(TrimCR(s)) && |TrimCR(s)| <= |s| && TrimCR(s) == s[..|TrimCR(s)|]
  {
    if EndsInCR(s) {
      TrimCRTrims(s[..|s| - 1]);
    }
  }

  // ---------------------------------------------------------------------------
  // Numbers
  // ---------------------------------------------------------------------------

  function DigitOf(n: nat): char
    requires n < 10
  {
    '0' + n as char
  }

  function Decimal(n: nat): string {
    if n < 10 then [DigitOf(n)] else Decimal(n / 10) + [DigitOf(n % 10)]
  }

  /** The length of the run of digits at the start of s. */
  function DigitRun(s: string): (n: nat)
    ensures n <= |s|
  {
    if s == "" || !IsDigit(s[0]) then 0 else 1 + DigitRun(s[1..])
  }

  function ValueOf(digits: string): nat
    requires forall i | 0 <= i < |digits| :: IsDigit(digits[i])
  {
    if digits == "" then 0 else ValueOf(digits[..|digits| - 1]) * 10 + ValueOfDigit(digits[|digits| - 1])
  }

  function ValueOfDigit(c: char): nat
    requires IsDigit(c)
  {
    c as int - '0' as int
  }

  lemma {:induction false} RunIsDigits(s: string)
    ensures forall i | 0 <= i < DigitRun(s) :: IsDigit(s[i])
  {
    if s != "" && IsDigit(s[0]) {
      RunIsDigits(s[1..]);
      assert forall i | 1 <= i < DigitRun(s) :: s[i] == s[1..][i - 1];
    }
  }

  lemma {:induction false} AllDigitsRun(s: string)
    requires forall i | 0 <= i < |s| :: IsDigit(s[i])
    ensures DigitRun(s) == |s|
  {
    if s != "" {
      AllDigitsRun(s[1..]);
    }
  }

  lemma {:induction false} DecimalReads(n: nat)
    ensures Decimal(n) != "" && forall i | 0 <= i < |Decimal(n)| :: IsDigit(Decimal(n)[i])
    ensures ValueOf(Decimal(n)) == n
  {
    if n >= 10 {
      DecimalReads(n / 10);
      assert Decimal(n)[..|Decimal(n)| - 1] == Decimal(n / 10);
    } else {
      assert Decimal(n)[..0] == "";
    }
  }

  /** %d of fmt.Sscanf: blanks, a sign, and digits within the range of the type. */
  function ScanInt(s: string): Option<Int64> {
    var t := TrimSpaceLeft(s);
    var signed := t != "" && (t[0] == '-' || t[0] == '+');
    var u := if signed then t[1..] else t;
    RunIsDigits(u);
    var value: int := ValueOf(u[..DigitRun(u)]);
    var x: int := if signed && t[0] == '-' then -value else value;
    if DigitRun(u) == 0 || !(-0x8000_0000_0000_0000 <= x < 0x8000_0000_0000_0000) then None else Some(x)
  }

  lemma ScanOfDecimal(n: Int64)
    requires n >= 0
    ensures ScanInt(Decimal(n)) == Some(n)
  {
    var s := Decimal(n);
    DecimalReads(n);
    AllDigitsRun(s);
    assert !IsSpace(s[0]) && s[0] != '-' && s[0] != '+' && TrimSpaceLeft(s) == s;
    assert s[..|s|] == s;
  }

  // ---------------------------------------------------------------------------
  // Text symbols
  // ---------------------------------------------------------------------------

  const MAX_LENGTH := "@MaxLength:"

  /** What one line gives: at most a symbol, and the maximal length for the next one. */
  datatype LineResult = LineResult(symbols: seq<TextSymbol>, maxLen: Int64)

  function ReadLine(raw: string, maxLen: Int64): LineResult {
    var line := TrimCR(raw);
    if HasPrefix(line, MAX_LENGTH) then LineResult([], NextMaxLength(line, maxLen))
    else if 0 < IndexOf(line, '=') < |line| then LineResult([SymbolOf(line, maxLen)], 0)
    else LineResult([], maxLen)
  }

  function ParseSymbolLines(lines: seq<string>, maxLen: Int64): seq<TextSymbol>
    decreases |lines|
  {
    if lines == [] then [] else
    var r := ReadLine(lines[0], maxLen);
    r.symbols + ParseSymbolLines(lines[1..], r.maxLen)
  }

  function SymbolOf(line: string, maxLen: Int64): TextSymbol
    requires IndexOf(line, '=') < |line|
  {
    var idx := IndexOf(line, '=');
    TextSymbol(TrimSpace(line[..idx]), line[idx + 1..], maxLen)
  }

  /** A number that cannot be scanned leaves the old one. */
  function NextMaxLength(line: string, maxLen: Int64): Int64
    requires HasPrefix(line, MAX_LENGTH)
  {
    var scanned := ScanInt(line[|MAX_LENGTH|..]);
    if scanned.Some? then scanned.value else maxLen
  }

  function ParsedSymbols(source: string): seq<TextSymbol> { ParseSymbolLines(Split(source, '\n'), 0) }

  /** The symbols so far, and those of the lines that are left, are all. */
  ghost predicate Parsing(all: seq<TextSymbol>, symbols: seq<TextSymbol>, maxLen: Int64, left: seq<string>) {
    all == symbols + ParseSymbolLines(left, maxLen)
  }

  lemma ParsingOn(all: seq<TextSymbol>, symbols: seq<TextSymbol>, maxLen: Int64, line: string, rest: seq<string>)
    requires Parsing(all, symbols, maxLen, [line] + rest)
    ensures var r := ReadLine(line, maxLen); Parsing(all, symbols + r.symbols, r.maxLen, rest)
  {
    var r := ReadLine(line, maxLen);
    assert ([line] + rest)[1..] == rest;
    assert symbols + (r.symbols + ParseSymbolLines(rest, r.maxLen))
           == (symbols + r.symbols) + ParseSymbolLines(rest, r.maxLen);
  }

  /** The loop body. */
  method ParseSymbolLine(raw: string, maxLen: Int64) returns (symbols: seq<TextSymbol>, maxLen': Int64)
    ensures LineResult(symbols, maxLen') == ReadLine(raw, maxLen)
  {
    symbols, maxLen' := [], maxLen;
    var line := TrimCR(raw);
    if line == "" {
      return;
    }
    if HasPrefix(line, MAX_LENGTH) {
      maxLen' := NextMaxLength(line, maxLen);
      return;
    }
    var idx := IndexOf(line, '=');
    if 0 < idx < |line| {
      symbols := [TextSymbol(TrimSpace(line[..idx]), line[idx + 1..], maxLen)];
      maxLen' := 0;
    }
  }

  method ParseTextSymbols(source: string) returns (symbols: seq<TextSymbol>)
    ensures symbols == ParsedSymbols(source)
  {
    symbols := [];
    var maxLen: Int64 := 0;
    var lines := Split(source, '\n');
    assert lines[0..] == lines;
    for i := 0 to |lines|
      invariant Parsing(ParsedSymbols(source), symbols, maxLen, lines[i..])
    {
      assert lines[i..] == [lines[i]] + lines[i + 1..];
      ParsingOn(ParsedSymbols(source), symbols, maxLen, lines[i], lines[i + 1..]);
      var more;
      more, maxLen := ParseSymbolLine(lines[i], maxLen);
      symbols := symbols + more;
    }
  }

  predicate IsLengthLine(raw: string) { HasPrefix(TrimCR(raw), "@MaxLength:") }

  predicate IsSymbolLine(raw: string) {
    !IsLengthLine(raw) && 0 < IndexOf(TrimCR(raw), '=') < |TrimCR(raw)|
  }

  /** The maximal length the i-th line finds: that of the last line before it that gives one, unless a
      symbol has taken it. */
  function LengthBefore(lines: seq<string>, i: nat): Int64
    requires i <= |lines|
  {
    if i == 0 then 0
    else if IsLengthLine(lines[i - 1]) && ScanInt(TrimCR(lines[i - 1])[11..]).Some? then
      ScanInt(TrimCR(lines[i - 1])[11..]).value
    else if IsSymbolLine(lines[i - 1]) then 0
    else LengthBefore(lines, i - 1)
  }

  /** The symbol of the i-th line. */
  predicate IsSymbolOf(s: TextSymbol, lines: seq<string>, i: nat)
    requires i < |lines|
  {
    var line := TrimCR(lines[i]);
    var eq := IndexOf(line, '=');
    && IsSymbolLine(lines[i]) && s.maxLength == LengthBefore(lines, i)
    && s.key == TrimSpace(line[..eq]) && s.text == line[eq + 1..]
  }

  /** The symbols are, in order, those of the symbol lines among the first n. */
  ghost predicate AreSymbolsOf(symbols: seq<TextSymbol>, lines: seq<string>, n: nat, idx: seq<nat>) {
    && n <= |lines| && |idx| == |symbols| && (forall k, l | 0 <= k < l < |idx| :: idx[k] < idx[l])
    && (forall i :: i in idx <==> 0 <= i < n && IsSymbolLine(lines[i]))
    && forall k {:trigger idx[k]} | 0 <= k < |idx| :: idx[k] < |lines| && IsSymbolOf(symbols[k], lines, idx[k])
  }

  lemma {:induction false} OneMoreSymbol(symbols: seq<TextSymbol>, lines: seq<string>, n: nat, idx: seq<nat>,
                                         s: TextSymbol)
    requires AreSymbolsOf(symbols, lines, n, idx) && n < |lines| && IsSymbolOf(s, lines, n)
    ensures AreSymbolsOf(symbols + [s], lines, n + 1, idx + [n])
  {
    var more := idx + [n];
    forall k {:trigger more[k]} | 0 <= k < |more|
      ensures more[k] < |lines| && IsSymbolOf((symbols + [s])[k], lines, more[k])
    {
      assert k < |idx| ==> more[k] == idx[k] && idx[k] in idx;
    }
    forall i ensures i in more <==> 0 <= i < n + 1 && IsSymbolLine(lines[i]) {
      assert more[|idx|] == n;
      assert i in more <==> i in idx || i == n;
    }
  }

  lemma {:induction false} NoMoreSymbol(symbols: seq<TextSymbol>, lines: seq<string>, n: nat, idx: seq<nat>)
    requires AreSymbolsOf(symbols, lines, n, idx) && n < |lines| && !IsSymbolLine(lines[n])
    ensures AreSymbolsOf(symbols, lines, n + 1, idx)
  {}

  lemma {:induction false} ParsedUpTo(lines: seq<string>, n: nat) returns (symbols: seq<TextSymbol>, idx: seq<nat>)
    requires n <= |lines|
    ensures Parsing(ParseSymbolLines(lines, 0), symbols, LengthBefore(lines, n), lines[n..])
    ensures AreSymbolsOf(symbols, lines, n, idx)
  {
    if n == 0 {
      symbols, idx := [], [];
      assert lines[0..] == lines;
    } else {
      symbols, idx := ParsedUpTo(lines, n - 1);
      assert lines[n - 1..] == [lines[n - 1]] + lines[n..];
      ParsingOn(ParseSymbolLines(lines, 0), symbols, LengthBefore(lines, n - 1), lines[n - 1], lines[n..]);
      LineIsRead(lines, n - 1);
      if IsSymbolLine(lines[n - 1]) {
        var s := SymbolOf(TrimCR(lines[n - 1]), LengthBefore(lines, n - 1));
        OneMoreSymbol(symbols, lines, n - 1, idx, s);
        symbols, idx := symbols + [s], idx + [n - 1];
      } else {
        NoMoreSymbol(symbols, lines, n - 1, idx);
        assert symbols + [] == symbols;
      }
    }
  }

  lemma {:induction false} LineIsRead(lines: seq<string>, i: nat)
    requires i < |lines|
    ensures var r := ReadLine(lines[i], LengthBefore(lines, i));
            && r.maxLen == LengthBefore(lines, i + 1)
            && (IsSymbolLine(lines[i]) ==>
                  r.symbols == [SymbolOf(TrimCR(lines[i]), LengthBefore(lines, i))]
                  && IsSymbolOf(r.symbols[0], lines, i))
            && (!IsSymbolLine(lines[i]) ==> r.symbols == [])
  {
    assert MAX_LENGTH == "@MaxLength:" && |MAX_LENGTH| == 11;
  }

  /** On every text: the symbols are those of the lines with a key and a '=' that give no length, in
      order, each with the last length given since the symbol before it. */
  lemma {:induction false} ParsedExactly(source: string) returns (idx: seq<nat>)
    ensures AreSymbolsOf(ParsedSymbols(source), Split(source, '\n'), |Split(source, '\n')|, idx)
  {
    var lines := Split(source, '\n');
    var symbols;
    symbols, idx := ParsedUpTo(lines, |lines|);
    assert lines[|lines|..] == [] && symbols + [] == symbols;
  }

  /** The lines of one symbol, without their line ends. */
  function SymbolLines(s: TextSymbol): seq<string> {
    (if s.maxLength > 0 then [MAX_LENGTH + Decimal(s.maxLength)] else []) + [s.key + "=" + s.text]
  }

  function Ended(lines: seq<string>): string {
    if lines == [] then "" else lines[0] + "\n" + Ended(lines[1..])
  }

  function FormattedSymbols(symbols: seq<TextSymbol>): string { Ended(FlatMap(SymbolLines, symbols)) }

  lemma {:induction false} EndedAppend(a: seq<string>, b: seq<string>)
    ensures Ended(a + b) == Ended(a) + Ended(b)
  {
    if a == [] {
      assert a + b == b;
    } else {
      assert (a + b)[1..] == a[1..] + b;
      EndedAppend(a[1..], b);
      assert a[0] + "\n" + (Ended(a[1..]) + Ended(b)) == a[0] + "\n" + Ended(a[1..]) + Ended(b);
    }
  }

  lemma EndedOne(line: string)
    ensures Ended([line]) == line + "\n"
  {
    assert [line][1..] == [] && line + "\n" + "" == line + "\n";
  }

  lemma FormatStep(symbols: seq<TextSymbol>, i: nat)
    requires i < |symbols|
    ensures FormattedSymbols(symbols[..i + 1]) == FormattedSymbols(symbols[..i]) + Ended(SymbolLines(symbols[i]))
  {
    FlatMapCut(SymbolLines, symbols, i);
    EndedAppend(FlatMap(SymbolLines, symbols[..i]), SymbolLines(symbols[i]));
  }

  lemma EndedSymbol(s: TextSymbol)
    ensures Ended(SymbolLines(s))
            == (if s.maxLength > 0 then MAX_LENGTH + Decimal(s.maxLength) + "\n" else "")
               + (s.key + "=" + s.text + "\n")
  {
    var first := if s.maxLength > 0 then [MAX_LENGTH + Decimal(s.maxLength)] else [];
    EndedAppend(first, [s.key + "=" + s.text]);
    EndedOne(s.key + "=" + s.text);
    if s.maxLength > 0 {
      EndedOne(MAX_LENGTH + Decimal(s.maxLength));
    }
  }

  method FormatTextSymbols(symbols: seq<TextSymbol>) returns (b: string)
    ensures b == FormattedSymbols(symbols)
  {
    b := "";
    for i := 0 to |symbols|
      invariant b == FormattedSymbols(symbols[..i])
    {
      var s := symbols[i];
      FormatStep(symbols, i);
      EndedSymbol(s);
      if s.maxLength > 0 {
        b := b + (MAX_LENGTH + Decimal(s.maxLength) + "\n");
      }
      b := b + (s.key + "=" + s.text + "\n");
    }
    assert symbols[..|symbols|] == symbols;
  }

  // ---------------------------------------------------------------------------
  // Symbols: parse after format
  // ---------------------------------------------------------------------------

  /** What every parsed key and text is like. */
  predicate IsKey(key: string) { IsTrimmed(key) && '=' !in key && '\n' !in key }

  predicate IsText(text: string) { '\n' !in text && !EndsInCR(text) }

  predicate Produced(s: TextSymbol) { IsKey(s.key) && IsText(s.text) }

  lemma PrefixChars()
    ensures |MAX_LENGTH| == 11 && '=' !in MAX_LENGTH && '\n' !in MAX_LENGTH
  {}

  /** The line begins with the keyword exactly when the key does. */
  lemma KeywordInKey(key: string, text: string)
    requires '=' !in key
    ensures HasPrefix(key + "=" + text, MAX_LENGTH) <==> HasPrefix(key, MAX_LENGTH)
  {
    PrefixChars();
    var line, n := key + "=" + text, |MAX_LENGTH|;
    if n <= |key| {
      assert line[..n] == key[..n];
    } else if n <= |line| {
      assert line[..n][|key|] == '=';
    }
  }

  lemma LineOfProduced(s: TextSymbol, maxLen: Int64)
    requires Produced(s)
    ensures ReadLine(s.key + "=" + s.text, maxLen)
            == if HasPrefix(s.key, MAX_LENGTH) then LineResult([], NextMaxLength(s.key + "=" + s.text, maxLen))
               else if s.key == "" then LineResult([], maxLen)
               else LineResult([s.(maxLength := maxLen)], 0)
  {
    var line := s.key + "=" + s.text;
    assert line[|line| - 1] == if s.text == "" then '=' else s.text[|s.text| - 1];
    assert TrimCR(line) == line;
    KeywordInKey(s.key, s.text);
    IndexOfFirst(s.key, '=', s.text);
    assert line[..|s.key|] == s.key && line[|s.key| + 1..] == s.text;
    TrimPadded(s.key, 0);
    assert s.key + Spaces(0) == s.key;
  }

  lemma MaxLengthLine(n: Int64, maxLen: Int64)
    requires n >= 0
    ensures ReadLine(MAX_LENGTH + Decimal(n), maxLen) == LineResult([], n)
  {
    var line := MAX_LENGTH + Decimal(n);
    DecimalReads(n);
    assert line[|line| - 1] == Decimal(n)[|Decimal(n)| - 1];
    assert TrimCR(line) == line && line[..|MAX_LENGTH|] == MAX_LENGTH && line[|MAX_LENGTH|..] == Decimal(n);
    ScanOfDecimal(n);
  }

  /** The symbol's own line is read as a symbol. */
  predicate Contributes(s: TextSymbol) { s.key != "" && !HasPrefix(s.key, MAX_LENGTH) }

  function Positive(s: TextSymbol, otherwise: Int64): Int64 { if s.maxLength > 0 then s.maxLength else otherwise }

  /** What the lines of one symbol come to. */
  lemma SymbolIsRead(s: TextSymbol, rest: seq<string>, maxLen: Int64) returns (next: Int64)
    requires Produced(s)
    ensures ParseSymbolLines(SymbolLines(s) + rest, maxLen)
            == (if Contributes(s) then [s.(maxLength := Positive(s, maxLen))] else []) + ParseSymbolLines(rest, next)
    ensures Contributes(s) ==> next == 0
  {
    var line, m := s.key + "=" + s.text, Positive(s, maxLen);
    LineOfProduced(s, m);
    next := ReadLine(line, m).maxLen;
    assert ([line] + rest)[0] == line && ([line] + rest)[1..] == rest;
    if s.maxLength > 0 {
      MaxLengthLine(s.maxLength, maxLen);
      var lines := SymbolLines(s) + rest;
      assert lines[0] == MAX_LENGTH + Decimal(s.maxLength) && lines[1..] == [line] + rest;
      assert [] + ParseSymbolLines([line] + rest, m) == ParseSymbolLines([line] + rest, m);
    } else {
      assert SymbolLines(s) + rest == [line] + rest;
    }
  }

  function AllLines(symbols: seq<TextSymbol>): seq<string> { FlatMap(SymbolLines, symbols) + [""] }

  lemma AllLinesCons(symbols: seq<TextSymbol>)
    requires symbols != []
    ensures AllLines(symbols) == SymbolLines(symbols[0]) + AllLines(symbols[1..])
  {}

  lemma NoSymbolLines(maxLen: Int64)
    ensures ParseSymbolLines(AllLines([]), maxLen) == []
  {
    assert AllLines([]) == [""] && [""][1..] == [];
    assert ReadLine("", maxLen) == LineResult([], maxLen);
  }

  function Normalised(symbols: seq<TextSymbol>): (r: seq<TextSymbol>)
    ensures |r| == |symbols| && forall i | 0 <= i < |r| :: r[i] == symbols[i].(maxLength := Positive(symbols[i], 0))
  {
    seq(|symbols|, i requires 0 <= i < |symbols| => symbols[i].(maxLength := Positive(symbols[i], 0)))
  }

  lemma NormalisedCons(s: TextSymbol, rest: seq<TextSymbol>)
    ensures Normalised([s] + rest) == [s.(maxLength := Positive(s, 0))] + Normalised(rest)
  {}

  lemma OneMoreIsRead(s: TextSymbol, rest: seq<TextSymbol>)
    requires Produced(s) && Contributes(s) && ParseSymbolLines(AllLines(rest), 0) == Normalised(rest)
    ensures ParseSymbolLines(AllLines([s] + rest), 0) == Normalised([s] + rest)
  {
    AllLinesCons([s] + rest);
    var next := SymbolIsRead(s, AllLines(rest), 0);
    NormalisedCons(s, rest);
    assert ([s] + rest)[1..] == rest;
  }

  predicate AllContribute(symbols: seq<TextSymbol>) {
    forall i {:trigger symbols[i]} | 0 <= i < |symbols| :: Produced(symbols[i]) && Contributes(symbols[i])
  }

  lemma {:induction false} ContributingAreRead(symbols: seq<TextSymbol>)
    requires AllContribute(symbols)
    ensures ParseSymbolLines(AllLines(symbols), 0) == Normalised(symbols)
  {
    if symbols == [] {
      NoSymbolLines(0);
    } else {
      ContributingAreRead(symbols[1..]);
      OneMoreIsRead(symbols[0], symbols[1..]);
      assert symbols == [symbols[0]] + symbols[1..];
    }
  }

  /** At most one symbol is read for each, and one for each only if all contribute. */
  lemma {:induction false} AsManyOnlyIfAllContribute(symbols: seq<TextSymbol>, maxLen: Int64)
    requires forall i | 0 <= i < |symbols| :: Produced(symbols[i])
    ensures var read := ParseSymbolLines(AllLines(symbols), maxLen);
            |read| <= |symbols| && (|read| == |symbols| ==> forall i | 0 <= i < |symbols| :: Contributes(symbols[i]))
  {
    if symbols == [] {
      NoSymbolLines(maxLen);
    } else {
      AllLinesCons(symbols);
      var next := SymbolIsRead(symbols[0], AllLines(symbols[1..]), maxLen);
      AsManyOnlyIfAllContribute(symbols[1..], next);
      assert forall i | 1 <= i < |symbols| :: symbols[i] == symbols[1..][i - 1];
    }
  }

  lemma {:induction false} SplitOfEnded(lines: seq<string>)
    requires forall l | l in lines :: '\n' !in l
    ensures Split(Ended(lines), '\n') == lines + [""]
  {
    if lines != [] {
      SplitOfEnded(lines[1..]);
      SplitPrefix(lines[0], Ended(lines[1..]), '\n');
      assert [lines[0]] + (lines[1..] + [""]) == lines + [""];
    }
  }

  lemma {:induction false} SymbolLinesHoldNoLineEnd(symbols: seq<TextSymbol>)
    requires forall i | 0 <= i < |symbols| :: Produced(symbols[i])
    ensures forall l | l in FlatMap(SymbolLines, symbols) :: '\n' !in l
  {
    if symbols != [] {
      var s := symbols[0];
      SymbolLinesHoldNoLineEnd(symbols[1..]);
      PrefixChars();
      if s.maxLength > 0 {
        DecimalReads(s.maxLength);
      }
      assert forall l | l in SymbolLines(s) :: '\n' !in l;
    }
  }

  lemma ParsedIsReadOfLines(symbols: seq<TextSymbol>)
    requires forall i | 0 <= i < |symbols| :: Produced(symbols[i])
    ensures ParsedSymbols(FormattedSymbols(symbols)) == ParseSymbolLines(AllLines(symbols), 0)
  {
    SymbolLinesHoldNoLineEnd(symbols);
    SplitOfEnded(FlatMap(SymbolLines, symbols));
  }

  lemma {:induction false} ParsedAreProduced(lines: seq<string>, maxLen: Int64)
    requires forall i | 0 <= i < |lines| :: '\n' !in lines[i]
    ensures forall i | 0 <= i < |ParseSymbolLines(lines, maxLen)| :: Produced(ParseSymbolLines(lines, maxLen)[i])
    decreases |lines|
  {
    if lines != [] {
      ReadIsProduced(lines[0], maxLen);
      ParsedAreProduced(lines[1..], ReadLine(lines[0], maxLen).maxLen);
    }
  }

  lemma ReadIsProduced(raw: string, maxLen: Int64)
    requires '\n' !in raw
    ensures forall i | 0 <= i < |ReadLine(raw, maxLen).symbols| :: Produced(ReadLine(raw, maxLen).symbols[i])
  {
    TrimCRTrims(raw);
    var line := TrimCR(raw);
    var idx := IndexOf(line, '=');
    if idx < |line| {
      TrimSpaceTrims(line[..idx]);
      assert line[idx + 1..] != "" ==> line[idx + 1..][|line[idx + 1..]| - 1] == line[|line| - 1];
    }
  }

  /** A symbol that survives: a trimmed, non-empty key without '=' and line ends that is not taken for
      the keyword, a text without line ends and without a carriage return at its end, and no
      negative length. */
  predicate Survives(s: TextSymbol) { IsKey(s.key) && Contributes(s) && IsText(s.text) && s.maxLength >= 0 }

  /** Parsing undoes formatting exactly on lists of such symbols. */
  lemma SymbolsRoundTripExactly(symbols: seq<TextSymbol>)
    ensures ParsedSymbols(FormattedSymbols(symbols)) == symbols
            <==> forall i | 0 <= i < |symbols| :: Survives(symbols[i])
  {
    var parsed := ParsedSymbols(FormattedSymbols(symbols));
    if forall i | 0 <= i < |symbols| :: Survives(symbols[i]) {
      ParsedIsReadOfLines(symbols);
      ContributingAreRead(symbols);
      assert Normalised(symbols) == symbols;
    }
    if parsed == symbols {
      SplitParts(FormattedSymbols(symbols), '\n');
      ParsedAreProduced(Split(FormattedSymbols(symbols), '\n'), 0);
      ParsedIsReadOfLines(symbols);
      AsManyOnlyIfAllContribute(symbols, 0);
      ContributingAreRead(symbols);
      assert forall i | 0 <= i < |symbols| :: symbols[i] == Normalised(symbols)[i];
    }
  }

  // ---------------------------------------------------------------------------
  // Selection texts
  // ---------------------------------------------------------------------------

  function ReadSelection(raw: string): seq<SelectionText> {
    var line := TrimCR(raw);
    var idx := IndexOf(line, '=');
    if 0 < idx < |line| then [SelectionText(TrimSpace(line[..idx]), line[idx + 1..])] else []
  }

  function ParsedSelections(source: string): seq<SelectionText> { FlatMap(ReadSelection, Split(source, '\n')) }

  method ParseSelectionTexts(source: string) returns (texts: seq<SelectionText>)
    ensures texts == ParsedSelections(source)
  {
    texts := [];
    var lines := Split(source, '\n');
    for i := 0 to |lines|
      invariant texts == FlatMap(ReadSelection, lines[..i])
    {
      FlatMapCut(ReadSelection, lines, i);
      var line := TrimCR(lines[i]);
      if line == "" {
        continue;
      }
      var idx := IndexOf(line, '=');
      if 0 < idx < |line| {
        texts := texts + [SelectionText(TrimSpace(line[..idx]), line[idx + 1..])];
      }
    }
    assert lines[..|lines|] == lines;
  }

  const NAME_WIDTH := 8

  /** %-8s. */
  function Padded(name: string): string {
    if |name| < NAME_WIDTH then name + Spaces(NAME_WIDTH - |name|) else name + Spaces(0)
  }

  function SelectionLine(s: SelectionText): string { Padded(s.name) + "=" + s.text }

  function SelectionLines(s: SelectionText): seq<string> { [SelectionLine(s)] }

  function FormattedSelections(selections: seq<SelectionText>): string { Ended(FlatMap(SelectionLines, selections)) }

  method FormatSelectionTexts(selections: seq<SelectionText>) returns (b: string)
    ensures b == FormattedSelections(selections)
  {
    b := "";
    for i := 0 to |selections|
      invariant b == FormattedSelections(selections[..i])
    {
      FlatMapCut(SelectionLines, selections, i);
      EndedAppend(FlatMap(SelectionLines, selections[..i]), [SelectionLine(selections[i])]);
      EndedOne(SelectionLine(selections[i]));
      b := b + (Padded(selections[i].name) + "=" + selections[i].text + "\n");
    }
    assert selections[..|selections|] == selections;
  }

  /** The name in a column of eight, a '=' behind it, and the text. */
  predicate IsSelectionLine(line: string, s: SelectionText) {
    var w := if |s.name| < 8 then 8 else |s.name|;
    && |line| == w + 1 + |s.text| && line[..|s.name|] == s.name
    && (forall i | |s.name| <= i < w :: line[i] == ' ')
    && line[w] == '=' && line[w + 1..] == s.text
  }

  /** The printed text is one such line for each selection text, in order, with a line end. */
  lemma {:induction false} FormatIsLines(selections: seq<SelectionText>) returns (lines: seq<string>)
    ensures FormattedSelections(selections) == Ended(lines) && |lines| == |selections|
    ensures forall i | 0 <= i < |lines| :: IsSelectionLine(lines[i], selections[i])
  {
    lines := [];
    if selections != [] {
      var rest := FormatIsLines(selections[1..]);
      var line := SelectionLine(selections[0]);
      lines := [line] + rest;
      assert lines[1..] == rest;
      EndedAppend([line], FlatMap(SelectionLines, selections[1..]));
      EndedOne(line);
      SelectionLineIs(selections[0]);
    }
  }

  lemma {:induction false} SelectionLineIs(s: SelectionText)
    ensures IsSelectionLine(SelectionLine(s), s)
  {
    var n := if |s.name| < 8 then 8 - |s.name| else 0;
    assert NAME_WIDTH == 8 && Padded(s.name) == s.name + Spaces(n);
    SpacesAreBlank(n);
    var line := SelectionLine(s);
    assert line == s.name + Spaces(n) + "=" + s.text;
    forall i | |s.name| <= i < |s.name| + n ensures line[i] == ' ' {
      assert line[i] == Spaces(n)[i - |s.name|] && Spaces(n)[i - |s.name|] in Spaces(n);
    }
  }

  /** A selection text that survives. The name may be empty: its line begins with the padding. */
  predicate SelectionSurvives(s: SelectionText) { IsKey(s.name) && IsText(s.text) }

  lemma {:induction false} SpacesAreBlank(n: nat)
    ensures forall c | c in Spaces(n) :: c == ' '
  {
    if n > 0 {
      SpacesAreBlank(n - 1);
    }
  }

  lemma PaddedIs(name: string) returns (n: nat)
    ensures Padded(name) == name + Spaces(n) && |Padded(name)| >= NAME_WIDTH
    ensures forall c | c in Padded(name) :: c in name || c == ' '
  {
    n := if |name| < NAME_WIDTH then NAME_WIDTH - |name| else 0;
    SpacesAreBlank(n);
  }

  lemma SelectionIsRead(s: SelectionText)
    requires SelectionSurvives(s)
    ensures ReadSelection(SelectionLine(s)) == [s]
  {
    var line := SelectionLine(s);
    var n := PaddedIs(s.name);
    assert line[|line| - 1] == if s.text == "" then '=' else s.text[|s.text| - 1];
    assert TrimCR(line) == line;
    IndexOfFirst(Padded(s.name), '=', s.text);
    assert line[..|Padded(s.name)|] == Padded(s.name) && line[|Padded(s.name)| + 1..] == s.text;
    TrimPadded(s.name, n);
  }

  lemma {:induction false} SelectionsAreRead(selections: seq<SelectionText>)
    requires forall i | 0 <= i < |selections| :: SelectionSurvives(selections[i])
    ensures FlatMap(ReadSelection, FlatMap(SelectionLines, selections)) == selections
    ensures forall l | l in FlatMap(SelectionLines, selections) :: '\n' !in l
  {
    if selections != [] {
      var s := selections[0];
      SelectionsAreRead(selections[1..]);
      SelectionIsRead(s);
      var n := PaddedIs(s.name);
      FlatMapCons(ReadSelection, SelectionLine(s), FlatMap(SelectionLines, selections[1..]));
    }
  }

  lemma SelectionReadSurvives(raw: string)
    requires '\n' !in raw
    ensures forall i | 0 <= i < |ReadSelection(raw)| :: SelectionSurvives(ReadSelection(raw)[i])
  {
    TrimCRTrims(raw);
    var line := TrimCR(raw);
    var idx := IndexOf(line, '=');
    if idx < |line| {
      TrimSpaceTrims(line[..idx]);
      assert line[idx + 1..] != "" ==> line[idx + 1..][|line[idx + 1..]| - 1] == line[|line| - 1];
    }
  }

  lemma {:induction false} ParsedSelectionsSurvive(lines: seq<string>)
    requires forall i | 0 <= i < |lines| :: '\n' !in lines[i]
    ensures forall i | 0 <= i < |FlatMap(ReadSelection, lines)| :: SelectionSurvives(FlatMap(ReadSelection, lines)[i])
  {
    if lines != [] {
      SelectionReadSurvives(lines[0]);
      ParsedSelectionsSurvive(lines[1..]);
    }
  }

  /** Parsing undoes formatting exactly on lists of such selection texts. */
  lemma SelectionsRoundTripExactly(selections: seq<SelectionText>)
    ensures ParsedSelections(FormattedSelections(selections)) == selections <==>
            forall i | 0 <= i < |selections| :: SelectionSurvives(selections[i])
  {
    if forall i | 0 <= i < |selections| :: SelectionSurvives(selections[i]) {
      SelectionsAreRead(selections);
      SplitOfEnded(FlatMap(SelectionLines, selections));
      FlatMapAppend(ReadSelection, FlatMap(SelectionLines, selections), [""]);
      FlatMapOne(ReadSelection, "");
      assert ReadSelection("") == [];
      assert selections + [] == selections;
    }
    if ParsedSelections(FormattedSelections(selections)) == selections {
      SplitParts(FormattedSelections(selections), '\n');
      ParsedSelectionsSurvive(Split(FormattedSelections(selections), '\n'));
    }
  }
}
