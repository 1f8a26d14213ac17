/** PowerShell command text: a printer for cmdlet calls and a lexer and parser that read them back.
    An ASCII apostrophe is the only string delimiter. */
module PowerShellText {
  import opened Common

  /** A cmdlet call: its name and its parameters, each with at most one argument. */
  datatype Command = Command(name: string, params: seq<Param>)

  datatype Param = Param(flag: string, arg: Arg)

  /** No argument, string literals separated by commas, a time span, or a bare word. */
  datatype Arg = Switch | Strings(values: seq<string>) | Span(spanFlag: string, amount: string) | Word(word: string)

  /* ---- The printer ---- */

  function Doubled(value: string): string {
    if value == "" then ""
    else (if value[0] == '\'' then "''" else [value[0]]) + Doubled(value[1..])
  }

  /** `ps_single_quote`. */
  function SingleQuote(value: string): string {
    "'" + Doubled(value) + "'"
  }

  /** Literals joined by commas, as in `ps_ipv4_csv`. */
  function Csv(values: seq<string>): string {
    if values == [] then ""
    else if |values| == 1 then SingleQuote(values[0])
    else SingleQuote(values[0]) + "," + Csv(values[1..])
  }

  function ArgText(a: Arg): string {
    match a
    case Switch => ""
    case Strings(values) => " " + Csv(values)
    case Span(flag, amount) => " (New-TimeSpan " + flag + " " + amount + ")"
    case Word(w) => " " + w
  }

  function ParamsText(params: seq<Param>): string {
    if params == [] then "" else " " + params[0].flag + ArgText(params[0].arg) + ParamsText(params[1..])
  }

  function Print(c: Command): string {
    c.name + ParamsText(c.params)
  }

  /* ---- The lexer ---- */

  datatype Token = Bare(word: string) | Quoted(value: string) | Comma | Open | Close | Unterminated

  predicate Special(ch: char) {
    ch == ' ' || ch == '\'' || ch == ',' || ch == '(' || ch == ')'
  }

  /** The length of the bare word a text starts with. */
  function WordLength(s: string): (n: nat)
    ensures n <= |s|
    ensures forall i :: 0 <= i < n ==> !Special(s[i])
  {
    if s == "" || Special(s[0]) then 0 else 1 + WordLength(s[1..])
  }

  /** The value of a literal whose opening quote is behind us, and the text after its closing one. */
  function Literal(s: string): (r: Option<(string, string)>)
    ensures r.Some? ==> |r.value.1| < |s|
    decreases |s|
  {
    if s == "" then None
    else if s[0] != '\'' then
      match Literal(s[1..])
      case None => None
      case Some(p) => Some(([s[0]] + p.0, p.1))
    else if |s| > 1 && s[1] == '\'' then
      match Literal(s[2..])
      case None => None
      case Some(p) => Some((['\''] + p.0, p.1))
    else Some(("", s[1..]))
  }

  function Lex(s: string): seq<Token>
    decreases |s|
  {
    if s == "" then []
    else if s[0] == ' ' then Lex(s[1..])
    else if s[0] == ',' then [Comma] + Lex(s[1..])
    else if s[0] == '(' then [Open] + Lex(s[1..])
    else if s[0] == ')' then [Close] + Lex(s[1..])
    else if s[0] == '\'' then
      match Literal(s[1..])
      case None => [Unterminated]
      case Some(p) => [Quoted(p.0)] + Lex(p.1)
    else
      assert !Special(s[0]);
      [Bare(s[..WordLength(s)])] + Lex(s[WordLength(s)..])
  }

  /* ---- The parser ---- */

  predicate IsFlag(t: Token) {
    t.Bare? && t.word != "" && t.word[0] == '-'
  }

  datatype Parsed<T> = Parsed(value: T, rest: seq<Token>)

  function ParseStrings(ts: seq<Token>): (r: Parsed<seq<string>>)
    requires ts != [] && ts[0].Quoted?
    ensures |r.rest| < |ts|
    decreases |ts|
  {
    if |ts| > 2 && ts[1].Comma? && ts[2].Quoted? then
      var more := ParseStrings(ts[2..]);
      Parsed([ts[0].value] + more.value, more.rest)
    else Parsed([ts[0].value], ts[1..])
  }

  function ParseArg(ts: seq<Token>): (r: Option<Parsed<Arg>>)
    ensures r.Some? ==> |r.value.rest| <= |ts|
  {
    if ts == [] || IsFlag(ts[0]) then Some(Parsed(Switch, ts))
    else if ts[0].Quoted? then
      var values := ParseStrings(ts);
      Some(Parsed(Strings(values.value), values.rest))
    else if ts[0].Bare? then Some(Parsed(Word(ts[0].word), ts[1..]))
    else if |ts| >= 5 && ts[..2] == [Open, Bare("New-TimeSpan")] && ts[2].Bare? && ts[3].Bare? && ts[4].Close? then
      Some(Parsed(Span(ts[2].word, ts[3].word), ts[5..]))
    else None
  }

  function ParseParams(ts: seq<Token>): Option<seq<Param>>
    decreases |ts|
  {
    if ts == [] then Some([])
    else if !IsFlag(ts[0]) then None
    else match ParseArg(ts[1..])
         case None => None
         case Some(arg) =>
           match ParseParams(arg.rest)
           case None => None
           case Some(params) => Some([Param(ts[0].word, arg.value)] + params)
  }

  function Parse(ts: seq<Token>): Option<Command> {
    if ts == [] || !ts[0].Bare? then None
    else match ParseParams(ts[1..])
         case None => None
         case Some(params) => Some(Command(ts[0].word, params))
  }

  /* ---- What the lexer makes of what the printer prints ---- */

  predicate NoneSpecial(w: string) {
    forall i :: 0 <= i < |w| ==> !Special(w[i])
  }

  predicate IsWord(w: string) {
    w != "" && NoneSpecial(w)
  }

  /** The text goes on with something that ends a word and is no quote. */
  predicate Ends(rest: string) {
    rest == "" || rest[0] == ' ' || rest[0] == ',' || rest[0] == ')'
  }

  lemma {:induction false} LiteralEnds(value: string, rest: string)
    requires Ends(rest)
    ensures Literal(Doubled(value) + "'" + rest) == Some((value, rest))
  {
    if value == "" {
      assert Doubled(value) + "'" + rest == "'" + rest;
      assert ("'" + rest)[1..] == rest;
    } else {
      var more := Doubled(value[1..]) + "'" + rest;
      LiteralEnds(value[1..], rest);
      assert value == [value[0]] + value[1..];
      if value[0] == '\'' {
        assert Doubled(value) + "'" + rest == "''" + more;
        assert ("''" + more)[2..] == more;
      } else {
        assert Doubled(value) + "'" + rest == [value[0]] + more;
        assert ([value[0]] + more)[1..] == more;
      }
    }
  }

  /** A printed literal lexes to its value, whatever apostrophes that contains. */
  lemma LexLiteral(value: string, rest: string)
    requires Ends(rest)
    ensures Lex(SingleQuote(value) + rest) == [Quoted(value)] + Lex(rest)
  {
    LiteralEnds(value, rest);
    var s := SingleQuote(value) + rest;
    assert s[1..] == Doubled(value) + "'" + rest;
  }

  lemma {:induction false} WordLengthOf(w: string, rest: string)
    requires NoneSpecial(w) && Ends(rest)
    ensures WordLength(w + rest) == |w|
  {
    if w == "" {
      assert w + rest == rest;
    } else {
      assert (w + rest)[1..] == w[1..] + rest;
      assert w == [w[0]] + w[1..];
      WordLengthOf(w[1..], rest);
    }
  }

  lemma LexWord(w: string, rest: string)
    requires IsWord(w) && Ends(rest)
    ensures Lex(w + rest) == [Bare(w)] + Lex(rest)
  {
    WordLengthOf(w, rest);
    assert w[0] in w && !Special((w + rest)[0]);
    assert (w + rest)[..|w|] == w && (w + rest)[|w|..] == rest;
  }

  lemma LexSpace(rest: string)
    ensures Lex(" " + rest) == Lex(rest)
  {
    assert (" " + rest)[1..] == rest;
  }

  lemma LexNothing()
    ensures Lex("") == []
  {
  }

  lemma LexPunctuation(rest: string)
    ensures Lex("," + rest) == [Comma] + Lex(rest)
    ensures Lex("(" + rest) == [Open] + Lex(rest)
    ensures Lex(")" + rest) == [Close] + Lex(rest)
  {
    assert ("," + rest)[1..] == rest && ("(" + rest)[1..] == rest && (")" + rest)[1..] == rest;
  }

  function CsvTokens(values: seq<string>): seq<Token> {
    if values == [] then []
    else if |values| == 1 then [Quoted(values[0])]
    else [Quoted(values[0]), Comma] + CsvTokens(values[1..])
  }

  lemma {:induction false} LexCsv(values: seq<string>, rest: string)
    requires values != [] && Ends(rest)
    ensures Lex(Csv(values) + rest) == CsvTokens(values) + Lex(rest)
  {
    hide Lex, SingleQuote;
    if |values| == 1 {
      LexLiteral(values[0], rest);
    } else {
      var more := Csv(values[1..]) + rest;
      assert Csv(values) + rest == SingleQuote(values[0]) + ("," + more);
      LexLiteral(values[0], "," + more);
      LexPunctuation(more);
      LexCsv(values[1..], rest);
      assert [Quoted(values[0])] + ([Comma] + (CsvTokens(values[1..]) + Lex(rest))) == CsvTokens(values) + Lex(rest);
    }
  }

  function ArgTokens(a: Arg): seq<Token> {
    match a
    case Switch => []
    case Strings(values) => CsvTokens(values)
    case Span(flag, amount) => [Open, Bare("New-TimeSpan"), Bare(flag), Bare(amount), Close]
    case Word(w) => [Bare(w)]
  }

  /** Arguments the printer can be trusted with. */
  predicate GoodArg(a: Arg) {
    match a
    case Switch => true
    case Strings(values) => values != []
    case Span(flag, amount) => IsWord(flag) && IsWord(amount)
    case Word(w) => IsWord(w) && w[0] != '-'
  }

  predicate GoodParam(p: Param) {
    IsWord(p.flag) && p.flag[0] == '-' && GoodArg(p.arg)
  }

  predicate Good(c: Command) {
    IsWord(c.name) && forall i :: 0 <= i < |c.params| ==> GoodParam(c.params[i])
  }

  lemma LexSpan(flag: string, amount: string, rest: string)
    requires IsWord(flag) && IsWord(amount) && Ends(rest)
    ensures Lex(" (New-TimeSpan " + flag + " " + amount + ")" + rest) == ArgTokens(Span(flag, amount)) + Lex(rest)
  {
    hide Lex;
    var s4 := ")" + rest;
    var s3 := amount + s4;
    var s2 := flag + (" " + s3);
    var s1 := "New-TimeSpan" + (" " + s2);
    assert " (New-TimeSpan " + flag + " " + amount + ")" + rest == " " + ("(" + s1);
    LexSpace("(" + s1);
    LexPunctuation(s1);
    LexWord("New-TimeSpan", " " + s2);
    LexSpace(s2);
    LexWord(flag, " " + s3);
    LexSpace(s3);
    LexWord(amount, s4);
    LexPunctuation(rest);
  }

  lemma LexArg(a: Arg, rest: string)
    requires GoodArg(a) && Ends(rest)
    ensures Lex(ArgText(a) + rest) == ArgTokens(a) + Lex(rest)
  {
    hide Lex;
    match a
    case Switch => assert ArgText(a) + rest == rest;
    case Strings(values) =>
      assert ArgText(a) + rest == " " + (Csv(values) + rest);
      LexSpace(Csv(values) + rest);
      LexCsv(values, rest);
    case Span(flag, amount) => LexSpan(flag, amount, rest);
    case Word(w) =>
      assert ArgText(a) + rest == " " + (w + rest);
      LexSpace(w + rest);
      LexWord(w, rest);
  }

  function ParamsTokens(params: seq<Param>): seq<Token> {
    if params == [] then [] else [Bare(params[0].flag)] + ArgTokens(params[0].arg) + ParamsTokens(params[1..])
  }

  lemma ParamsTextSplits(params: seq<Param>)
    requires params != []
    ensures ParamsText(params) == " " + (params[0].flag + (ArgText(params[0].arg) + ParamsText(params[1..])))
  {
  }

  lemma EndsBeforeArg(a: Arg, rest: string)
    requires Ends(rest)
    ensures Ends(ArgText(a) + rest)
  {
    if a.Switch? {
      assert ArgText(a) + rest == rest;
    }
  }

  lemma {:induction false} LexParams(params: seq<Param>)
    requires forall i :: 0 <= i < |params| ==> GoodParam(params[i])
    ensures Ends(ParamsText(params)) && Lex(ParamsText(params)) == ParamsTokens(params)
  {
    hide Lex, ArgTokens, ArgText, CsvTokens;
    if params == [] {
      LexNothing();
    } else {
      var p, rest := params[0], ParamsText(params[1..]);
      LexParams(params[1..]);
      ParamsTextSplits(params);
      EndsBeforeArg(p.arg, rest);
      LexSpace(p.flag + (ArgText(p.arg) + rest));
      LexWord(p.flag, ArgText(p.arg) + rest);
      LexArg(p.arg, rest);
    }
  }

  /* ---- What the parser makes of it ---- */

  lemma {:induction false} ParseStringsOf(values: seq<string>, rest: seq<Token>)
    requires values != [] && (rest == [] || IsFlag(rest[0]))
    ensures var ts := CsvTokens(values) + rest;
            ts[0].Quoted? && ParseStrings(ts) == Parsed(values, rest)
  {
    var ts := CsvTokens(values) + rest;
    if |values| == 1 {
      assert ts == [Quoted(values[0])] + rest && ts[1..] == rest;
      assert rest != [] ==> ts[1] == rest[0];
      assert [values[0]] == values;
    } else {
      var more := CsvTokens(values[1..]) + rest;
      ParseStringsOf(values[1..], rest);
      assert ts == [Quoted(values[0]), Comma] + more;
      assert ts[2..] == more && ts[2] == more[0];
      assert [values[0]] + values[1..] == values;
    }
  }

  lemma ParseArgOf(a: Arg, rest: seq<Token>)
    requires GoodArg(a) && (rest == [] || IsFlag(rest[0]))
    ensures ParseArg(ArgTokens(a) + rest) == Some(Parsed(a, rest))
  {
    var ts := ArgTokens(a) + rest;
    match a
    case Switch => assert ts == rest;
    case Strings(values) => ParseStringsOf(values, rest);
    case Span(_, _) =>
      assert ts[..2] == [Open, Bare("New-TimeSpan")];
      assert ts[5..] == rest;
    case Word(_) => assert ts[1..] == rest;
  }

  lemma {:induction false} ParseParamsOf(params: seq<Param>)
    requires forall i :: 0 <= i < |params| ==> GoodParam(params[i])
    ensures ParseParams(ParamsTokens(params)) == Some(params)
    ensures ParamsTokens(params) == [] || IsFlag(ParamsTokens(params)[0])
  {
    hide ParseArg, ArgTokens;
    if params != [] {
      ParseParamsOf(params[1..]);
      ParseArgOf(params[0].arg, ParamsTokens(params[1..]));
      assert ParamsTokens(params)[1..] == ArgTokens(params[0].arg) + ParamsTokens(params[1..]);
      assert [params[0]] + params[1..] == params;
    }
  }

  /** Round trip: lexing and parsing the text of a command gives the command back. */
  lemma PrintedCommandsReadBack(c: Command)
    requires Good(c)
    ensures Parse(Lex(Print(c))) == Some(c)
  {
    LexParams(c.params);
    LexWord(c.name, ParamsText(c.params));
    ParseParamsOf(c.params);
    assert ([Bare(c.name)] + ParamsTokens(c.params))[1..] == ParamsTokens(c.params);
  }

  /** No value can break out of its literal: two values never print alike, whatever follows. */
  lemma LiteralsAreInjective(a: string, b: string, x: string, y: string)
    requires Ends(x) && Ends(y) && SingleQuote(a) + x == SingleQuote(b) + y
    ensures a == b && x == y
  {
    assert (SingleQuote(a) + x)[1..] == Doubled(a) + "'" + x;
    assert (SingleQuote(b) + y)[1..] == Doubled(b) + "'" + y;
    LiteralEnds(a, x);
    LiteralEnds(b, y);
  }

  /* ---- Numbers and addresses ---- */

  function Digit(d: nat): char
    requires d < 10
  {
    '0' + d as char
  }

  function Decimal(n: nat): string {
    if n < 10 then [Digit(n)] else Decimal(n / 10) + [Digit(n % 10)]
  }

  lemma {:induction false} DecimalIsWord(n: nat)
    ensures Decimal(n) != "" && forall i :: 0 <= i < |Decimal(n)| ==> '0' <= Decimal(n)[i] <= '9'
    ensures IsWord(Decimal(n)) && Decimal(n)[0] != '-'
  {
    if n >= 10 {
      DecimalIsWord(n / 10);
    }
  }

  lemma {:induction false} DecimalIsInjective(m: nat, n: nat)
    requires Decimal(m) == Decimal(n)
    ensures m == n
  {
    var a, b := Decimal(m), Decimal(n);
    DecimalIsWord(m / 10);
    DecimalIsWord(n / 10);
    assert a[|a| - 1] == b[|b| - 1];
    if m >= 10 && n >= 10 {
      assert Decimal(m / 10) == a[..|a| - 1] && Decimal(n / 10) == b[..|b| - 1];
      DecimalIsInjective(m / 10, n / 10);
    }
  }

  function DottedQuad(ip: nat): string {
    Decimal(ip / 0x100_0000) + "." + (Decimal(ip / 0x1_0000 % 0x100) + "." +
      (Decimal(ip / 0x100 % 0x100) + "." + Decimal(ip % 0x100)))
  }

  lemma FirstDotSplits(a: string, b: string, x: string, y: string)
    requires '.' !in a && '.' !in b && a + "." + x == b + "." + y
    ensures a == b && x == y
  {
    NotShorter(a, b, x, y);
    NotShorter(b, a, y, x);
    var s, t := a + "." + x, b + "." + y;
    assert a == s[..|a|] && b == t[..|b|];
    assert x == s[|a| + 1..] && y == t[|b| + 1..];
  }

  lemma NotShorter(a: string, b: string, x: string, y: string)
    requires '.' !in b && a + "." + x == b + "." + y
    ensures |a| >= |b|
  {
    var s, t := a + "." + x, b + "." + y;
    assert s[|a|] == '.';
    assert forall i :: 0 <= i < |b| ==> t[i] == b[i];
  }

  lemma DecimalHasNoDot(n: nat)
    ensures '.' !in Decimal(n)
  {
    DecimalIsWord(n);
  }

  lemma OctetsMakeUp(a: nat)
    ensures a == 0x100_0000 * (a / 0x100_0000) + 0x1_0000 * (a / 0x1_0000 % 0x100)
                 + 0x100 * (a / 0x100 % 0x100) + a % 0x100
  {
  }

  lemma DottedQuadIsInjective(a: nat, b: nat)
    requires DottedQuad(a) == DottedQuad(b)
    ensures a == b
  {
    hide Decimal;
    var a3, a2, a1, a0 := a / 0x100_0000, a / 0x1_0000 % 0x100, a / 0x100 % 0x100, a % 0x100;
    var b3, b2, b1, b0 := b / 0x100_0000, b / 0x1_0000 % 0x100, b / 0x100 % 0x100, b % 0x100;
    DecimalHasNoDot(a3);
    DecimalHasNoDot(b3);
    DecimalHasNoDot(a2);
    DecimalHasNoDot(b2);
    DecimalHasNoDot(a1);
    DecimalHasNoDot(b1);
    var tailA, tailB := Decimal(a1) + "." + Decimal(a0), Decimal(b1) + "." + Decimal(b0);
    FirstDotSplits(Decimal(a3), Decimal(b3), Decimal(a2) + "." + tailA, Decimal(b2) + "." + tailB);
    FirstDotSplits(Decimal(a2), Decimal(b2), tailA, tailB);
    FirstDotSplits(Decimal(a1), Decimal(b1), Decimal(a0), Decimal(b0));
    DecimalIsInjective(a3, b3);
    DecimalIsInjective(a2, b2);
    DecimalIsInjective(a1, b1);
    DecimalIsInjective(a0, b0);
    OctetsMakeUp(a);
    OctetsMakeUp(b);
  }
}
