// A reader for content streams after ISO 32000-1 sections 7.8.2 and 9.4: tokens,
// then operators executed on their operands. It knows no writer's template.
module PdfContent {
  import opened Wrappers
  import Decimal
  import opened PdfText
  import opened PdfSyntax

  // ---------------------------------------------------------------- tokens

  datatype Token = NameToken(id: string) | NumberToken(digits: string) | TextToken(text: string) | Operator(name: string)

  predicate IsWhite(c: char) {
    c == ' ' || c == '\n' || c == '\r' || c == '\t'
  }

  function SkipWhite(s: string): (r: string)
    ensures |r| <= |s| && (r != [] ==> !IsWhite(r[0]))
  {
    if s != [] && IsWhite(s[0]) then SkipWhite(s[1..]) else s
  }

  predicate IsNumberChar(c: char) {
    Decimal.IsDigit(c) || c == '.' || c == '-'
  }

  /** A token at the very front of s. */
  function ReadToken(s: string): (r: Option<(Token, string)>)
    ensures r.Some? ==> |r.value.1| < |s|
  {
    if s == [] then None
    else if s[0] == '/' then
      var k := NameRun(s[1..]);
      if k == 0 then None else Some((NameToken(s[1..][..k]), s[1..][k..]))
    else if s[0] == '(' then
      var (text, rest) :- ReadLiteral(s[1..]);
      Some((TextToken(text), rest))
    else
      var k := NameRun(s);
      if k == 0 then None
      else if IsNumberChar(s[0]) then Some((NumberToken(s[..k]), s[k..]))
      else Some((Operator(s[..k]), s[k..]))
  }

  function ReadTokens(s: string): Option<seq<Token>>
    decreases |s|
  {
    var t := SkipWhite(s);
    if t == [] then Some([])
    else
      var (token, rest) :- ReadToken(t);
      var tokens :- ReadTokens(rest);
      Some([token] + tokens)
  }

  // ---------------------------------------------------------------- operators

  /** A piece of text as it appears on the page. */
  datatype Drawn = Drawn(font: string, size: string, x: int, y: int, text: string)

  /** What the text operators act on. */
  datatype Graphics = Graphics(inText: bool, font: string, size: string, x: int, y: int)

  const START := Graphics(false, "", "", 0, 0)

  /** A number operand that is an integer. */
  function IntOf(digits: string): Option<int> {
    if digits != [] && digits[0] == '-' then
      if digits[1..] != [] && Decimal.AllDigits(digits[1..]) then
        var n: int := Decimal.Value(digits[1..]);
        Some(-n)
      else None
    else if digits != [] && Decimal.AllDigits(digits) then Some(Decimal.Value(digits))
    else None
  }

  /** BT, ET, Tf, Td: the state after the operator. */
  function Changed(g: Graphics, operands: seq<Token>, name: string): Option<Graphics> {
    if name == "BT" then
      if operands == [] && !g.inText then Some(g.(inText := true, x := 0, y := 0)) else None
    else if name == "ET" then
      if operands == [] && g.inText then Some(g.(inText := false)) else None
    else if name == "Tf" then
      if |operands| == 2 && operands[0].NameToken? && operands[1].NumberToken? then
        Some(g.(font := operands[0].id, size := operands[1].digits))
      else None
    else if name == "Td" then
      if |operands| == 2 && operands[0].NumberToken? && operands[1].NumberToken? && g.inText then
        var x :- IntOf(operands[0].digits);
        var y :- IntOf(operands[1].digits);
        Some(g.(x := g.x + x, y := g.y + y))
      else None
    else None
  }

  /** Tj: the text drawn in the present state. */
  function Shown(g: Graphics, operands: seq<Token>): Option<Drawn> {
    if |operands| == 1 && operands[0].TextToken? && g.inText then
      Some(Drawn(g.font, g.size, g.x, g.y, operands[0].text))
    else None
  }

  /** Runs the operators in turn; everything else is an operand of the next one. */
  function Execute(g: Graphics, operands: seq<Token>, tokens: seq<Token>): Option<seq<Drawn>>
    decreases |tokens|
  {
    if tokens == [] then
      if operands == [] && !g.inText then Some([]) else None
    else if !tokens[0].Operator? then Execute(g, operands + [tokens[0]], tokens[1..])
    else if tokens[0].name == "Tj" then
      var drawn :- Shown(g, operands);
      var more :- Execute(g, [], tokens[1..]);
      Some([drawn] + more)
    else
      var next :- Changed(g, operands, tokens[0].name);
      Execute(next, [], tokens[1..])
  }

  /** Everything a content stream draws, in order. */
  function ReadContent(s: string): Option<seq<Drawn>> {
    var tokens :- ReadTokens(s);
    Execute(START, [], tokens)
  }

  // ---------------------------------------------------------------- reading printed tokens

  /** Text whose tokens are the given ones. */
  predicate Lexes(s: string, tokens: seq<Token>) {
    ReadTokens(s) == Some(tokens)
  }

  lemma Blank(c: char, rest: string, tokens: seq<Token>)
    requires IsWhite(c) && Lexes(rest, tokens)
    ensures Lexes([c] + rest, tokens)
  {
    assert ([c] + rest)[1..] == rest;
    assert SkipWhite([c] + rest) == SkipWhite(rest);
  }

  lemma OneToken(word: string, token: Token, rest: string, tokens: seq<Token>)
    requires word != [] && !IsWhite(word[0]) && ReadToken(word + rest) == Some((token, rest)) && Lexes(rest, tokens)
    ensures Lexes(word + rest, [token] + tokens)
  {
    hide ReadToken;
    assert SkipWhite(word + rest) == word + rest;
  }

  /** White space ends a name, a number or an operator. */
  predicate IsApart(rest: string) {
    rest == [] || IsWhite(rest[0])
  }

  lemma WordRun(word: string, rest: string)
    requires IsNameText(word) && IsApart(rest)
    ensures NameRun(word + rest) == |word|
    ensures (word + rest)[..|word|] == word && (word + rest)[|word|..] == rest
  {
    PdfSyntax.NameRunOf(word, rest);
  }

  lemma LexName(id: string, rest: string, tokens: seq<Token>)
    requires IsNameText(id) && IsApart(rest) && Lexes(rest, tokens)
    ensures Lexes("/" + id + rest, [NameToken(id)] + tokens)
  {
    hide Lexes;
    WordRun(id, rest);
    assert ("/" + id + rest)[1..] == id + rest;
    OneToken("/" + id, NameToken(id), rest, tokens);
  }

  lemma LexNumber(digits: string, rest: string, tokens: seq<Token>)
    requires IsNameText(digits) && IsNumberChar(digits[0]) && IsApart(rest) && Lexes(rest, tokens)
    ensures Lexes(digits + rest, [NumberToken(digits)] + tokens)
  {
    hide Lexes;
    WordRun(digits, rest);
    OneToken(digits, NumberToken(digits), rest, tokens);
  }

  lemma LexOperator(name: string, rest: string, tokens: seq<Token>)
    requires IsNameText(name) && !IsNumberChar(name[0]) && IsApart(rest) && Lexes(rest, tokens)
    ensures Lexes(name + rest, [Operator(name)] + tokens)
  {
    hide Lexes;
    WordRun(name, rest);
    OneToken(name, Operator(name), rest, tokens);
  }

  lemma LexText(text: string, rest: string, tokens: seq<Token>)
    requires Lexes(rest, tokens)
    ensures Lexes("(" + Escape(text) + ")" + rest, [TextToken(SafeText(text))] + tokens)
  {
    hide Lexes, Escape, SafeText, ReadLiteral;
    ReadEscaped(text, rest);
    var word := "(" + Escape(text) + ")";
    assert (word + rest)[1..] == Escape(text) + ")" + rest;
    OneToken(word, TextToken(SafeText(text)), rest, tokens);
  }

  lemma IntOfPrinted(i: int)
    ensures IntOf(Decimal.PrintInt(i)) == Some(i)
  {
    if i < 0 {
      Decimal.ValueOfPrint(-i);
      assert Decimal.PrintInt(i)[1..] == Decimal.Print(-i);
    } else {
      Decimal.ValueOfPrint(i);
      assert Decimal.IsDigit(Decimal.Print(i)[0]);
    }
  }

  lemma PrintedIsNumber(i: int)
    ensures var s := Decimal.PrintInt(i); IsNameText(s) && IsNumberChar(s[0])
  {
    var s := Decimal.PrintInt(i);
    assert Decimal.AllDigits(Decimal.Print(if i < 0 then -i else i));
    assert forall k :: 0 <= k < |s| ==> s[k] == '-' || Decimal.IsDigit(s[k]);
  }
}
